/**
 * The event emitter: the listeners of an event are kept as nothing, as a single function or as an array that is changed
 * in place. Emitting walks a copy; listeners may call the emitter in any way before they return, so emits nest. The
 * events `newListener` and `removeListener`, which the emitter emits about itself, are not part of this model.
 */
module EventEmitter {
  import opened Options
  import opened Seqs

  datatype Name = Name(text: string)

  /** A function, or the wrapper that `once` puts around one; `home` is the event it was made for. */
  datatype Listener = Plain(fn: nat) | Wrapper(id: nat, home: Name, fn: nat)

  /** The identity of an array. */
  datatype Ref = Ref(id: nat)

  datatype Slot = Single(listener: Listener) | Many(ref: Ref)

  /** A running `emit`: its copy of the listeners, and which of them it calls next. */
  datatype Frame = Frame(emit: nat, ref: Ref, next: nat)

  /** One call of a listener, by an `emit` or directly; `ran` tells whether a wrapper called the function inside. */
  datatype Call = Call(emit: Option<nat>, listener: Listener, ran: bool)

  datatype State = State(
    events: map<Name, Slot>, eventsCount: int,
    arrays: map<Ref, seq<Listener>>, nextRef: nat,     // the contents of all arrays, and how many there are
    made: seq<Listener>, fired: set<nat>,              // the wrappers made, and those whose `fired` flag is set
    frames: seq<Frame>,
    // History: for which event an array was made (not for a copy), the listeners present when each emit began, the
    // emits that came to their end, and all calls.
    owner: map<Ref, Name>,
    started: seq<seq<Listener>>, returned: set<nat>, log: seq<Call>)

  datatype Action =
    | Add(name: Name, listener: Listener, prepend: bool)
    | Once(name: Name, fn: nat, prepend: bool)
    | Remove(name: Name, target: Listener)
    | Emit(name: Name)
    | Next                          // the innermost emit calls its next listener, or returns
    | Throw                         // the listener that it has called throws
    | Direct(listener: Listener)    // user code calls a listener itself

  predicate Initial(s: State) {
    && |s.events| == s.eventsCount == |s.arrays| == s.nextRef == |s.owner| == |s.made| == |s.fired| == 0
    && |s.frames| == |s.started| == |s.returned| == |s.log| == 0
  }

  // ---------------------------------------------------------------------------------------------
  // Listener lists
  // ---------------------------------------------------------------------------------------------

  /** Whether asking to remove `target` removes `l`: the function itself, or the one inside the wrapper. */
  predicate Stands(l: Listener, target: Listener) {
    l == target || (l.Wrapper? && target == Plain(l.fn))
  }

  /** The last index at which a listener stands for `target`, or -1. */
  function LastIndex(ls: seq<Listener>, target: Listener): (at: int)
    ensures -1 <= at < |ls| && (at >= 0 ==> Stands(ls[at], target))
    ensures forall i :: at < i < |ls| ==> !Stands(ls[i], target)
  {
    if |ls| == 0 then -1
    else if Stands(ls[|ls| - 1], target) then |ls| - 1
    else LastIndex(ls[..|ls| - 1], target)
  }

  function Cut(ls: seq<Listener>, at: nat): seq<Listener>
    requires at < |ls|
  {
    ls[..at] + ls[at + 1..]
  }

  /** The listeners without the last one that stands for `target`. */
  function WithoutLast(ls: seq<Listener>, target: Listener): seq<Listener> {
    var at := LastIndex(ls, target);
    if at < 0 then ls else Cut(ls, at)
  }

  function Added(ls: seq<Listener>, l: Listener, prepend: bool): seq<Listener> {
    if prepend then [l] + ls else ls + [l]
  }

  /** Removing a listener undoes adding it at the end. */
  lemma {:induction false} RemoveUndoesAdd(ls: seq<Listener>, l: Listener)
    ensures WithoutLast(ls + [l], l) == ls
  {
    assert LastIndex(ls + [l], l) == |ls|;
  }

  /**
   * Asking to remove a function takes out the last listener that is this function or a once wrapper around it, asking
   * to remove a wrapper the last that is this wrapper; if there is none, nothing changes.
   */
  lemma {:induction false} RemoveTakesLast(ls: seq<Listener>, target: Listener)
    ensures if exists l :: l in ls && (l == target || (l.Wrapper? && target.Plain? && l.fn == target.fn))
            then exists a, l, b ::
                   && ls == a + [l] + b && WithoutLast(ls, target) == a + b
                   && (l == target || (l.Wrapper? && target.Plain? && l.fn == target.fn))
                   && forall x :: x in b ==> x != target && (x.Wrapper? && target.Plain? ==> x.fn != target.fn)
            else WithoutLast(ls, target) == ls
  {
    var at := LastIndex(ls, target);
    if at >= 0 {
      var a, l, b := ls[..at], ls[at], ls[at + 1..];
      assert l in ls && Stands(l, target);
      assert ls == a + [l] + b;
      forall x | x in b
        ensures x != target && (x.Wrapper? && target.Plain? ==> x.fn != target.fn)
      {
        var i :| 0 <= i < |b| && b[i] == x;
        assert !Stands(ls[at + 1 + i], target);
      }
    }
  }

  /** Added in front, a listener is the last of its kind to be removed. */
  lemma {:induction false} RemoveAfterPrepend(ls: seq<Listener>, l: Listener)
    ensures WithoutLast([l] + ls, l)
         == if exists i :: 0 <= i < |ls| && Stands(ls[i], l) then [l] + WithoutLast(ls, l) else ls
  {
    var at := LastIndex(ls, l);
    LastIndexPrepend(ls, l);
    CutPrepend(ls, l, at);
  }

  lemma {:induction false} LastIndexPrepend(ls: seq<Listener>, l: Listener)
    ensures LastIndex([l] + ls, l) == LastIndex(ls, l) + 1
  {
    assert Stands(([l] + ls)[0], l);
    assert forall i :: 0 <= i < |ls| ==> ([l] + ls)[i + 1] == ls[i];
  }

  lemma {:induction false} CutPrepend(ls: seq<Listener>, l: Listener, at: int)
    requires -1 <= at < |ls|
    ensures Cut([l] + ls, at + 1) == if at >= 0 then [l] + Cut(ls, at) else ls
  {
  }

  /** What the slot of an event stands for. */
  function Items(s: State, slot: Slot): seq<Listener> {
    match slot
    case Single(l) => [l]
    case Many(ref) => if ref in s.arrays then s.arrays[ref] else []
  }

  function ListenersOf(s: State, name: Name): seq<Listener> {
    if name in s.events then Items(s, s.events[name]) else []
  }

  // ---------------------------------------------------------------------------------------------
  // Steps
  // ---------------------------------------------------------------------------------------------

  /** `addListener` and `prependListener`. */
  function DoAdd(s: State, name: Name, l: Listener, prepend: bool): State {
    if name !in s.events then s.(events := s.events[name := Single(l)], eventsCount := s.eventsCount + 1)
    else match s.events[name]
      case Single(o) =>
        s.(events := s.events[name := Many(Ref(s.nextRef))], nextRef := s.nextRef + 1,
           arrays := s.arrays[Ref(s.nextRef) := Added([o], l, prepend)], owner := s.owner[Ref(s.nextRef) := name])
      case Many(ref) => s.(arrays := s.arrays[ref := Added(Items(s, Many(ref)), l, prepend)])
  }

  function DoOnce(s: State, name: Name, fn: nat, prepend: bool): State {
    var w := Wrapper(|s.made|, name, fn);
    DoAdd(s.(made := s.made + [w]), name, w, prepend)
  }

  /** `removeListener`: a single function goes with its event; an array is cut in place, and one of one dissolves. */
  function DoRemove(s: State, name: Name, target: Listener): State {
    if name !in s.events then s
    else match s.events[name]
      case Single(l) =>
        if Stands(l, target) then s.(events := s.events - {name}, eventsCount := s.eventsCount - 1) else s
      case Many(ref) => CutArray(s, name, ref, LastIndex(Items(s, Many(ref)), target))
  }

  function CutArray(s: State, name: Name, ref: Ref, at: int): State
    requires at < |Items(s, Many(ref))|
  {
    if at < 0 then s
    else
      var rest := Cut(Items(s, Many(ref)), at);
      var t := s.(arrays := s.arrays[ref := rest]);
      if |rest| == 1 then t.(events := t.events[name := Single(rest[0])]) else t
  }

  /** `emit` takes a copy; without listeners it calls nothing. */
  function DoEmit(s: State, name: Name): State {
    if name in s.events then Entered(s, ListenersOf(s, name)) else s
  }

  function Entered(s: State, copy: seq<Listener>): State {
    s.(arrays := s.arrays[Ref(s.nextRef) := copy], nextRef := s.nextRef + 1,
       frames := s.frames + [Frame(|s.started|, Ref(s.nextRef), 0)], started := s.started + [copy])
  }

  /** A listener is called. A wrapper takes itself off its event and then calls its function, unless it has before. */
  function Invoke(s: State, emit: Option<nat>, l: Listener): State {
    if l.Wrapper? && l.id in s.fired then s.(log := s.log + [Call(emit, l, false)])
    else if l.Wrapper? then
      var t := DoRemove(s, l.home, l);
      t.(fired := t.fired + {l.id}, log := t.log + [Call(emit, l, true)])
    else s.(log := s.log + [Call(emit, l, true)])
  }

  function Top(s: State): Frame
    requires |s.frames| > 0
  {
    s.frames[|s.frames| - 1]
  }

  function Pop(s: State): State
    requires |s.frames| > 0
  {
    s.(frames := s.frames[..|s.frames| - 1])
  }

  /** The loop of the innermost `emit` goes on. */
  function DoNext(s: State): State {
    if |s.frames| == 0 then s
    else
      var f := Top(s);
      var copy := Items(s, Many(f.ref));
      if f.next >= |copy| then Pop(s).(returned := s.returned + {f.emit})
      else Invoke(s.(frames := s.frames[..|s.frames| - 1] + [f.(next := f.next + 1)]), Some(f.emit), copy[f.next])
  }

  /** User code has functions of its own, and wrappers only as the emitter made them. */
  predicate Exists(s: State, l: Listener) {
    l.Wrapper? ==> l in s.made
  }

  function Step(s: State, a: Action): State {
    match a
    case Add(name, l, prepend) => if Exists(s, l) then DoAdd(s, name, l, prepend) else s
    case Once(name, fn, prepend) => DoOnce(s, name, fn, prepend)
    case Remove(name, target) => DoRemove(s, name, target)
    case Emit(name) => DoEmit(s, name)
    case Next => DoNext(s)
    case Throw => if |s.frames| == 0 then s else Pop(s)
    case Direct(l) => if Exists(s, l) then Invoke(s, None, l) else s
  }

  // ---------------------------------------------------------------------------------------------
  // The representation
  // ---------------------------------------------------------------------------------------------

  predicate IsArray(s: State, n: Name) {
    n in s.events && s.events[n].Many?
  }

  /** `ref` is an array of at least two listeners, made for the event `n`. */
  predicate ArrayFor(s: State, ref: Ref, n: Name) {
    && ref.id < s.nextRef && ref in s.arrays && |s.arrays[ref]| >= 2
    && ref in s.owner && s.owner[ref] == n
  }

  /** Absent, single or an array of at least two of its own; and the count is that of the names. */
  ghost predicate Normal(s: State) {
    && s.eventsCount == |s.events|
    && (forall n :: IsArray(s, n) ==> ArrayFor(s, s.events[n].ref, n))
    && (forall ref :: ref in s.owner ==> ref.id < s.nextRef)
  }

  /** Only the event `name` has changed, and now has these listeners. */
  ghost predicate Changed(s: State, t: State, name: Name, ls: seq<Listener>) {
    Normal(t) && ListenersOf(t, name) == ls && forall n :: n != name ==> ListenersOf(t, n) == ListenersOf(s, n)
  }

  lemma {:induction false} NewEvent(s: State, name: Name, l: Listener)
    requires Normal(s) && name !in s.events
    ensures Changed(s, s.(events := s.events[name := Single(l)], eventsCount := s.eventsCount + 1), name, [l])
  {
    var t := s.(events := s.events[name := Single(l)], eventsCount := s.eventsCount + 1);
    assert forall n :: IsArray(t, n) <==> IsArray(s, n);
  }

  lemma {:induction false} NewArray(s: State, name: Name, ls: seq<Listener>)
    requires Normal(s) && name in s.events && s.events[name].Single? && |ls| >= 2
    ensures var ref := Ref(s.nextRef);
            Changed(s, s.(events := s.events[name := Many(ref)], nextRef := s.nextRef + 1,
                          arrays := s.arrays[ref := ls], owner := s.owner[ref := name]), name, ls)
  {
    var ref := Ref(s.nextRef);
    var t := s.(events := s.events[name := Many(ref)], nextRef := s.nextRef + 1, arrays := s.arrays[ref := ls],
                owner := s.owner[ref := name]);
    assert s.events.Keys + {name} == s.events.Keys;
    assert forall n :: IsArray(t, n) <==> n == name || IsArray(s, n);
  }

  lemma {:induction false} ArrayChanges(s: State, name: Name, ls: seq<Listener>)
    requires Normal(s) && IsArray(s, name) && |ls| >= 2
    ensures Changed(s, s.(arrays := s.arrays[s.events[name].ref := ls]), name, ls)
  {
    var t := s.(arrays := s.arrays[s.events[name].ref := ls]);
    forall n | IsArray(s, n) && n != name
      ensures t.arrays[t.events[n].ref] == s.arrays[s.events[n].ref]
    {
    }
  }

  lemma {:induction false} EventGoes(s: State, name: Name)
    requires Normal(s) && name in s.events && s.events[name].Single?
    ensures Changed(s, s.(events := s.events - {name}, eventsCount := s.eventsCount - 1), name, [])
  {
    var t := s.(events := s.events - {name}, eventsCount := s.eventsCount - 1);
    assert t.events.Keys == s.events.Keys - {name};
    assert forall n :: IsArray(t, n) <==> IsArray(s, n);
  }

  lemma {:induction false} ArrayDissolves(s: State, name: Name, l: Listener)
    requires Normal(s) && IsArray(s, name)
    ensures Changed(s, s.(arrays := s.arrays[s.events[name].ref := [l]], events := s.events[name := Single(l)]),
                    name, [l])
  {
    var t := s.(arrays := s.arrays[s.events[name].ref := [l]], events := s.events[name := Single(l)]);
    assert s.events.Keys + {name} == s.events.Keys;
    assert forall n :: IsArray(t, n) <==> n != name && IsArray(s, n);
    forall n | IsArray(s, n) && n != name
      ensures t.arrays[t.events[n].ref] == s.arrays[s.events[n].ref]
    {
    }
  }

  /** Adding a listener adds it to the list of its event, and touches no other. */
  lemma {:induction false} AddRefines(s: State, name: Name, l: Listener, prepend: bool)
    requires Normal(s)
    ensures var ls := ListenersOf(s, name);
            Changed(s, DoAdd(s, name, l, prepend), name, if prepend then [l] + ls else ls + [l])
  {
    assert !prepend ==> [] + [l] == [l];
    assert prepend ==> [l] + [] == [l];
    if name !in s.events {
      NewEvent(s, name, l);
    } else if s.events[name].Single? {
      NewArray(s, name, Added(ListenersOf(s, name), l, prepend));
    } else {
      assert IsArray(s, name);
      ArrayChanges(s, name, Added(ListenersOf(s, name), l, prepend));
    }
  }

  /** Removing a listener takes the last one that stands for it off the list of its event, and touches no other. */
  lemma {:induction false} RemoveRefines(s: State, name: Name, target: Listener)
    requires Normal(s)
    ensures Changed(s, DoRemove(s, name, target), name, WithoutLast(ListenersOf(s, name), target))
  {
    if name in s.events {
      if s.events[name].Single? {
        if Stands(s.events[name].listener, target) {
          EventGoes(s, name);
        }
      } else {
        CutRefines(s, name, target);
      }
    }
  }

  lemma {:induction false} CutRefines(s: State, name: Name, target: Listener)
    requires Normal(s) && IsArray(s, name)
    ensures Changed(s, DoRemove(s, name, target), name, WithoutLast(ListenersOf(s, name), target))
  {
    var ls := ListenersOf(s, name);
    var at := LastIndex(ls, target);
    if at >= 0 {
      var rest := Cut(ls, at);
      if |rest| == 1 {
        assert rest == [rest[0]];
        ArrayDissolves(s, name, rest[0]);
      } else {
        ArrayChanges(s, name, rest);
      }
    }
  }

  // ---------------------------------------------------------------------------------------------
  // Running emits
  // ---------------------------------------------------------------------------------------------

  /** The listeners that the emit `e` has called, in order. */
  function CallsOf(log: seq<Call>, e: nat): seq<Listener> {
    if |log| == 0 then []
    else
      var c := log[|log| - 1];
      CallsOf(log[..|log| - 1], e) + if c.emit == Some(e) then [c.listener] else []
  }

  lemma {:induction false} CallsOfNext(log: seq<Call>, c: Call, e: nat)
    ensures CallsOf(log + [c], e) == CallsOf(log, e) + if c.emit == Some(e) then [c.listener] else []
  {
    assert (log + [c])[..|log|] == log;
  }

  /** A running emit has a copy that no event uses, of the listeners present at its start. */
  predicate FrameOk(s: State, f: Frame) {
    && f.ref.id < s.nextRef && f.ref in s.arrays && f.ref !in s.owner
    && f.emit < |s.started| && s.arrays[f.ref] == s.started[f.emit] && f.next <= |s.started[f.emit]|
  }

  ghost predicate Framed(s: State) {
    && (forall k :: 0 <= k < |s.frames| ==> FrameOk(s, s.frames[k]) && s.frames[k].emit !in s.returned)
    && (forall j, k :: 0 <= j < k < |s.frames| ==> s.frames[j].emit != s.frames[k].emit)
    && (forall e :: e in s.returned ==> e < |s.started|)
  }

  /** A running emit has called the listeners before the next one, one that has returned all of them. */
  ghost predicate Logged(s: State)
    requires Framed(s)
  {
    && (forall k :: 0 <= k < |s.frames| ==>
          CallsOf(s.log, s.frames[k].emit) == s.started[s.frames[k].emit][..s.frames[k].next])
    && (forall e :: e in s.returned ==> CallsOf(s.log, e) == s.started[e])
    && (forall e: nat :: if e < |s.started| then CallsOf(s.log, e) <= s.started[e] else CallsOf(s.log, e) == [])
  }

  ghost predicate Emits(s: State) {
    Framed(s) && Logged(s)
  }

  /** What adding and removing listeners leaves alone. */
  ghost predicate LeavesCopies(s: State, t: State) {
    && t.frames == s.frames && t.started == s.started && t.returned == s.returned && t.log == s.log
    && t.fired == s.fired && s.nextRef <= t.nextRef
    && forall ref: Ref :: ref.id < s.nextRef && ref in s.arrays && ref !in s.owner ==>
         ref in t.arrays && t.arrays[ref] == s.arrays[ref] && ref !in t.owner
  }

  lemma {:induction false} AddLeavesCopies(s: State, name: Name, l: Listener, prepend: bool)
    requires Normal(s)
    ensures LeavesCopies(s, DoAdd(s, name, l, prepend))
  {
    assert name in s.events && s.events[name].Many? ==> IsArray(s, name);
  }

  lemma {:induction false} RemoveLeavesCopies(s: State, name: Name, target: Listener)
    requires Normal(s)
    ensures LeavesCopies(s, DoRemove(s, name, target))
  {
    assert name in s.events && s.events[name].Many? ==> IsArray(s, name);
  }

  lemma {:induction false} CopiesKeepEmits(s: State, t: State)
    requires Emits(s) && LeavesCopies(s, t)
    ensures Emits(t)
  {
    forall k | 0 <= k < |t.frames|
      ensures FrameOk(t, t.frames[k])
    {
      assert FrameOk(s, s.frames[k]);
    }
  }

  lemma {:induction false} EmitKeepsFrames(s: State, name: Name)
    requires Normal(s) && Emits(s)
    ensures Framed(DoEmit(s, name)) && Normal(DoEmit(s, name))
  {
    var t := DoEmit(s, name);
    if name in s.events {
      forall k | 0 <= k < |s.frames|
        ensures FrameOk(t, t.frames[k])
      {
        assert FrameOk(s, s.frames[k]);
      }
      assert forall n :: IsArray(t, n) <==> IsArray(s, n);
    }
  }

  lemma {:induction false} EmitKeepsEmits(s: State, name: Name)
    requires Normal(s) && Emits(s)
    ensures Emits(DoEmit(s, name))
  {
    var t := DoEmit(s, name);
    EmitKeepsFrames(s, name);
    if name in s.events {
      forall k | 0 <= k < |t.frames|
        ensures CallsOf(t.log, t.frames[k].emit) == t.started[t.frames[k].emit][..t.frames[k].next]
      {
        assert k < |s.frames| ==> t.frames[k] == s.frames[k] && FrameOk(s, s.frames[k]);
      }
    }
  }

  /** The innermost emit ends, by returning or because a listener throws. */
  lemma {:induction false} PopKeepsEmits(s: State)
    requires Emits(s) && |s.frames| > 0
    ensures Emits(Pop(s))
    ensures var f := Top(s); f.next >= |Items(s, Many(f.ref))| ==> Emits(Pop(s).(returned := s.returned + {f.emit}))
  {
    var f := Top(s);
    assert FrameOk(s, f);
    assert f.next == |s.started[f.emit]| ==> s.started[f.emit][..f.next] == s.started[f.emit];
    forall k | 0 <= k < |s.frames| - 1
      ensures FrameOk(Pop(s), Pop(s).frames[k])
    {
      assert FrameOk(s, s.frames[k]);
    }
  }

  /** A call is logged; if by the innermost emit, it is the call of the listener that was next. */
  lemma {:induction false} CallKeepsEmits(s: State, c: Call)
    requires Emits(s)
    requires c.emit == None ||
             (|s.frames| > 0 && c.emit == Some(Top(s).emit) && Top(s).next < |s.started[Top(s).emit]|
              && c.listener == s.started[Top(s).emit][Top(s).next])
    ensures var f := if c.emit == None then s.frames
                     else s.frames[..|s.frames| - 1] + [Top(s).(next := Top(s).next + 1)];
            Emits(s.(frames := f, log := s.log + [c]))
  {
    forall e: nat
      ensures CallsOf(s.log + [c], e) == CallsOf(s.log, e) + if c.emit == Some(e) then [c.listener] else []
    {
      CallsOfNext(s.log, c, e);
    }
    if c.emit != None {
      AdvanceFramed(s, c);
      OneMore(s.started[Top(s).emit], Top(s).next);
    }
  }

  lemma {:induction false} AdvanceFramed(s: State, c: Call)
    requires Framed(s) && |s.frames| > 0 && Top(s).next < |s.started[Top(s).emit]|
    ensures Framed(s.(frames := s.frames[..|s.frames| - 1] + [Top(s).(next := Top(s).next + 1)], log := s.log + [c]))
  {
    assert FrameOk(s, Top(s));
  }

  // ---------------------------------------------------------------------------------------------
  // Wrappers
  // ---------------------------------------------------------------------------------------------

  function IdsOf(log: seq<Call>): set<nat> {
    if |log| == 0 then {}
    else
      var c := log[|log| - 1];
      IdsOf(log[..|log| - 1]) + if c.listener.Wrapper? then {c.listener.id} else {}
  }

  /** A call runs its function, except a call of a wrapper that has been called before. */
  predicate FirstCallsRun(log: seq<Call>) {
    |log| > 0 ==>
      var c, before := log[|log| - 1], log[..|log| - 1];
      FirstCallsRun(before) && (c.ran <==> !(c.listener.Wrapper? && c.listener.id in IdsOf(before)))
  }

  lemma {:induction false} LogNext(log: seq<Call>, c: Call)
    ensures IdsOf(log + [c]) == IdsOf(log) + if c.listener.Wrapper? then {c.listener.id} else {}
    ensures FirstCallsRun(log + [c]) <==>
            FirstCallsRun(log) && (c.ran <==> !(c.listener.Wrapper? && c.listener.id in IdsOf(log)))
  {
    assert (log + [c])[..|log|] == log;
  }

  ghost predicate AllMade(made: seq<Listener>, ls: seq<Listener>) {
    forall l :: l in ls && l.Wrapper? ==> l in made
  }

  /** Wrappers are numbered as they are made, and those registered, copied or fired have been made. */
  ghost predicate Known(s: State) {
    && (forall k :: 0 <= k < |s.made| ==> s.made[k].Wrapper? && s.made[k].id == k)
    && (forall n :: n in s.events && s.events[n].Single? ==> Exists(s, s.events[n].listener))
    && (forall ref :: ref in s.arrays ==> AllMade(s.made, s.arrays[ref]))
    && (forall id :: id in s.fired ==> id < |s.made|)
  }

  ghost predicate Fires(s: State) {
    s.fired == IdsOf(s.log) && FirstCallsRun(s.log)
  }

  lemma {:induction false} ListenersMade(s: State, name: Name)
    requires Known(s) && Normal(s)
    ensures AllMade(s.made, ListenersOf(s, name))
  {
    if name in s.events && s.events[name].Many? {
      assert IsArray(s, name);
    }
  }

  lemma {:induction false} AddKnown(s: State, name: Name, l: Listener, prepend: bool)
    requires Known(s) && Normal(s) && Exists(s, l)
    ensures Known(DoAdd(s, name, l, prepend))
  {
    ListenersMade(s, name);
    assert AllMade(s.made, Added(ListenersOf(s, name), l, prepend));
  }

  lemma {:induction false} MakeKnown(s: State, name: Name, fn: nat)
    requires Known(s)
    ensures var w := Wrapper(|s.made|, name, fn); var t := s.(made := s.made + [w]); Known(t) && Exists(t, w)
  {
    var t := s.(made := s.made + [Wrapper(|s.made|, name, fn)]);
    assert forall l :: l in s.made ==> l in t.made;
    forall ref | ref in s.arrays
      ensures AllMade(t.made, s.arrays[ref])
    {
      assert AllMade(s.made, s.arrays[ref]);
    }
  }

  lemma {:induction false} RemoveKnown(s: State, name: Name, target: Listener)
    requires Known(s) && Normal(s)
    ensures Known(DoRemove(s, name, target)) && DoRemove(s, name, target).made == s.made
  {
    if IsArray(s, name) {
      var ls := s.arrays[s.events[name].ref];
      var at := LastIndex(ls, target);
      if at >= 0 {
        var rest := Cut(ls, at);
        assert AllMade(s.made, ls);
        assert forall l :: l in rest ==> l in ls;
        assert AllMade(s.made, rest);
        assert |rest| == 1 ==> rest[0] in rest;
      }
    }
  }

  lemma {:induction false} EmitKnown(s: State, name: Name)
    requires Known(s) && Normal(s)
    ensures Known(DoEmit(s, name))
  {
    ListenersMade(s, name);
  }

  /** Calling a listener keeps everything: a wrapper that has not fired takes itself off its event first. */
  lemma {:induction false} InvokeKeeps(s: State, emit: Option<nat>, l: Listener)
    requires Normal(s) && Known(s) && Fires(s) && Exists(s, l)
    ensures var t := Invoke(s, emit, l); Normal(t) && Known(t) && Fires(t)
  {
    if l.Wrapper? && l.id !in s.fired {
      FirstInvokeKeeps(s, emit, l);
    } else {
      LogOnlyKeeps(s, Call(emit, l, !l.Wrapper?));
    }
  }

  lemma {:induction false} LogOnlyKeeps(s: State, c: Call)
    requires Normal(s) && Known(s) && Fires(s)
    requires if c.listener.Wrapper? then c.listener.id in s.fired && !c.ran else c.ran
    ensures var t := s.(log := s.log + [c]); Normal(t) && Known(t) && Fires(t)
  {
    LogNext(s.log, c);
    SameStore(s, s.(log := s.log + [c]));
  }

  lemma {:induction false} FirstInvokeKeeps(s: State, emit: Option<nat>, l: Listener)
    requires Normal(s) && Known(s) && Fires(s) && Exists(s, l) && l.Wrapper? && l.id !in s.fired
    ensures var t := Invoke(s, emit, l); Normal(t) && Known(t) && Fires(t)
  {
    var t := DoRemove(s, l.home, l);
    RemoveRefines(s, l.home, l);
    RemoveKnown(s, l.home, l);
    RemoveLeavesCopies(s, l.home, l);
    FiredKeeps(t, Call(emit, l, true));
  }

  lemma {:induction false} FiredKeeps(s: State, c: Call)
    requires Normal(s) && Known(s) && Fires(s) && c.listener in s.made && c.listener.Wrapper? && c.ran
    requires c.listener.id !in s.fired
    ensures var t := s.(fired := s.fired + {c.listener.id}, log := s.log + [c]); Normal(t) && Known(t) && Fires(t)
  {
    LogNext(s.log, c);
    SameStore(s, s.(fired := s.fired + {c.listener.id}, log := s.log + [c]));
  }

  lemma {:induction false} SameStore(s: State, t: State)
    requires Normal(s) && t.events == s.events && t.eventsCount == s.eventsCount && t.arrays == s.arrays
    requires t.nextRef == s.nextRef && t.owner == s.owner
    ensures Normal(t)
  {
    assert forall n :: IsArray(t, n) <==> IsArray(s, n);
  }

  // ---------------------------------------------------------------------------------------------
  // Runs
  // ---------------------------------------------------------------------------------------------

  ghost predicate Inv(s: State) {
    Normal(s) && Known(s) && Fires(s) && Emits(s)
  }

  lemma {:induction false} InitialInv(s: State)
    requires Initial(s)
    ensures Inv(s)
  {
    assert forall n :: !IsArray(s, n);
  }

  lemma {:induction false} AddKeepsInv(s: State, name: Name, l: Listener, prepend: bool)
    requires Inv(s) && Exists(s, l)
    ensures Inv(DoAdd(s, name, l, prepend))
  {
    AddRefines(s, name, l, prepend);
    AddKnown(s, name, l, prepend);
    AddLeavesCopies(s, name, l, prepend);
    CopiesKeepEmits(s, DoAdd(s, name, l, prepend));
  }

  lemma {:induction false} MakeKeepsInv(s: State, name: Name, fn: nat)
    requires Inv(s)
    ensures Inv(s.(made := s.made + [Wrapper(|s.made|, name, fn)]))
  {
    var t := s.(made := s.made + [Wrapper(|s.made|, name, fn)]);
    MakeKnown(s, name, fn);
    SameStore(s, t);
    CopiesKeepEmits(s, t);
  }

  lemma {:induction false} OnceKeepsInv(s: State, name: Name, fn: nat, prepend: bool)
    requires Inv(s)
    ensures Inv(DoOnce(s, name, fn, prepend))
  {
    MakeKeepsInv(s, name, fn);
    AddKeepsInv(s.(made := s.made + [Wrapper(|s.made|, name, fn)]), name, Wrapper(|s.made|, name, fn), prepend);
  }

  lemma {:induction false} RemoveKeepsInv(s: State, name: Name, target: Listener)
    requires Inv(s)
    ensures Inv(DoRemove(s, name, target))
  {
    RemoveRefines(s, name, target);
    RemoveKnown(s, name, target);
    RemoveLeavesCopies(s, name, target);
    CopiesKeepEmits(s, DoRemove(s, name, target));
  }

  lemma {:induction false} EmitKeepsInv(s: State, name: Name)
    requires Inv(s)
    ensures Inv(DoEmit(s, name))
  {
    EmitKeepsFrames(s, name);
    EmitKeepsEmits(s, name);
    EmitKnown(s, name);
  }

  lemma {:induction false} DirectKeepsInv(s: State, l: Listener)
    requires Inv(s) && Exists(s, l)
    ensures Inv(Invoke(s, None, l))
  {
    InvokeKeeps(s, None, l);
    var ran := !(l.Wrapper? && l.id in s.fired);
    var t := if l.Wrapper? && ran then DoRemove(s, l.home, l) else s;
    if l.Wrapper? && ran {
      RemoveKeepsInv(s, l.home, l);
    }
    CallKeepsEmits(t, Call(None, l, ran));
    SameEmits(t.(log := t.log + [Call(None, l, ran)]), Invoke(s, None, l));
  }

  lemma {:induction false} SameEmits(s: State, t: State)
    requires Emits(s) && t.arrays == s.arrays && t.nextRef == s.nextRef && t.owner == s.owner
    requires t.frames == s.frames && t.started == s.started && t.returned == s.returned && t.log == s.log
    ensures Emits(t)
  {
    forall k | 0 <= k < |t.frames|
      ensures FrameOk(t, t.frames[k])
    {
      assert FrameOk(s, s.frames[k]);
    }
  }

  function Advanced(s: State): seq<Frame>
    requires |s.frames| > 0
  {
    s.frames[..|s.frames| - 1] + [Top(s).(next := Top(s).next + 1)]
  }

  /** What the innermost emit calls next. */
  function NextListener(s: State): Listener
    requires |s.frames| > 0 && Top(s).next < |Items(s, Many(Top(s).ref))|
  {
    Items(s, Many(Top(s).ref))[Top(s).next]
  }

  lemma {:induction false} NextCallKeepsStore(s: State)
    requires Inv(s) && |s.frames| > 0 && Top(s).next < |Items(s, Many(Top(s).ref))|
    ensures Normal(DoNext(s)) && Known(DoNext(s)) && Fires(DoNext(s))
  {
    var f, s1 := Top(s), s.(frames := Advanced(s));
    assert FrameOk(s, f) && AllMade(s.made, s.arrays[f.ref]);
    SameStore(s, s1);
    InvokeKeeps(s1, Some(f.emit), NextListener(s));
  }

  lemma {:induction false} PlainCallKeepsEmits(s: State, ran: bool)
    requires Inv(s) && |s.frames| > 0 && Top(s).next < |Items(s, Many(Top(s).ref))|
    ensures Emits(s.(frames := Advanced(s), log := s.log + [Call(Some(Top(s).emit), NextListener(s), ran)]))
  {
    assert FrameOk(s, Top(s));
    CallKeepsEmits(s, Call(Some(Top(s).emit), NextListener(s), ran));
  }

  lemma {:induction false} WrapperCallKeepsEmits(s: State, home: Name)
    requires Inv(s) && |s.frames| > 0 && Top(s).next < |Items(s, Many(Top(s).ref))|
    ensures var l := NextListener(s);
            var t := DoRemove(s, home, l);
            Emits(t.(frames := Advanced(s), log := s.log + [Call(Some(Top(s).emit), l, true)]))
  {
    RemoveKeepsInv(s, home, NextListener(s));
    RemoveKeepsNext(s, home, NextListener(s));
    PlainCallKeepsEmits(DoRemove(s, home, NextListener(s)), true);
  }

  /** Removing a listener does not change what a running emit calls next. */
  lemma {:induction false} RemoveKeepsNext(s: State, home: Name, l: Listener)
    requires Inv(s) && |s.frames| > 0 && Top(s).next < |Items(s, Many(Top(s).ref))|
    ensures var t := DoRemove(s, home, l);
            && t.frames == s.frames && t.log == s.log
            && Items(t, Many(Top(t).ref)) == Items(s, Many(Top(s).ref))
            && NextListener(t) == NextListener(s) && Advanced(t) == Advanced(s)
  {
    assert FrameOk(s, Top(s));
    RemoveLeavesCopies(s, home, l);
  }

  lemma {:induction false} NextCallKeepsInv(s: State)
    requires Inv(s) && |s.frames| > 0 && Top(s).next < |Items(s, Many(Top(s).ref))|
    ensures Inv(DoNext(s))
  {
    NextCallKeepsStore(s);
    NextCallKeepsEmits(s);
  }

  lemma {:induction false} NextCallKeepsEmits(s: State)
    requires Inv(s) && |s.frames| > 0 && Top(s).next < |Items(s, Many(Top(s).ref))|
    ensures Emits(DoNext(s))
  {
    var l := NextListener(s);
    if l.Wrapper? && l.id !in s.fired {
      WrapperCallKeepsEmits(s, l.home);
      WrapperCall(s);
      SameEmits(DoRemove(s, l.home, l).(frames := Advanced(s), log := s.log + [Call(Some(Top(s).emit), l, true)]),
                DoNext(s));
    } else {
      PlainCallKeepsEmits(s, !l.Wrapper?);
    }
  }

  /** What the first call of a wrapper by an emit does. */
  lemma {:induction false} WrapperCall(s: State)
    requires Normal(s) && |s.frames| > 0 && Top(s).next < |Items(s, Many(Top(s).ref))|
    requires NextListener(s).Wrapper? && NextListener(s).id !in s.fired
    ensures var l := NextListener(s);
            var t := DoRemove(s, l.home, l);
            DoNext(s) == t.(frames := Advanced(s), fired := s.fired + {l.id},
                            log := s.log + [Call(Some(Top(s).emit), l, true)])
  {
    var l := NextListener(s);
    FramesApart(s, l.home, l);
    RemoveLeavesCopies(s, l.home, l);
  }

  /** Removing a listener does not look at the frames. */
  lemma {:induction false} FramesApart(s: State, name: Name, target: Listener)
    requires |s.frames| > 0
    ensures DoRemove(s.(frames := Advanced(s)), name, target) == DoRemove(s, name, target).(frames := Advanced(s))
  {
    if name in s.events && s.events[name].Many? {
      var ref := s.events[name].ref;
      CutApart(s, name, ref, LastIndex(Items(s, Many(ref)), target));
    }
  }

  lemma {:induction false} CutApart(s: State, name: Name, ref: Ref, at: int)
    requires |s.frames| > 0 && at < |Items(s, Many(ref))|
    ensures CutArray(s.(frames := Advanced(s)), name, ref, at) == CutArray(s, name, ref, at).(frames := Advanced(s))
  {
  }

  lemma {:induction false} PopKeepsInv(s: State)
    requires Inv(s) && |s.frames| > 0
    ensures Inv(Pop(s))
    ensures Top(s).next >= |Items(s, Many(Top(s).ref))| ==> Inv(DoNext(s))
  {
    PopKeepsEmits(s);
    SameStore(s, Pop(s));
    SameStore(s, Pop(s).(returned := s.returned + {Top(s).emit}));
  }

  lemma {:induction false} NextKeepsInv(s: State)
    requires Inv(s) && |s.frames| > 0
    ensures Inv(DoNext(s))
  {
    if Top(s).next < |Items(s, Many(Top(s).ref))| {
      NextCallKeepsInv(s);
    } else {
      PopKeepsInv(s);
    }
  }

  lemma {:induction false} NextValid(s: State, t: State)
    requires Inv(s) && |s.frames| > 0 && t == DoNext(s)
    ensures Inv(t) && t == Step(s, Next)
  {
    NextKeepsInv(s);
  }

  lemma {:induction false} TopInArrays(s: State)
    requires Framed(s) && |s.frames| > 0
    ensures Top(s).ref in s.arrays
  {
    assert FrameOk(s, Top(s));
  }

  lemma {:induction false} StepKeepsInv(s: State, a: Action)
    requires Inv(s)
    ensures Inv(Step(s, a))
  {
    if a.Add? || a.Once? || a.Remove? {
      ChangeKeepsInv(s, a);
    } else if a.Next? || a.Throw? {
      FrameKeepsInv(s, a);
    } else {
      StartKeepsInv(s, a);
    }
  }

  lemma {:induction false} ChangeKeepsInv(s: State, a: Action)
    requires Inv(s) && (a.Add? || a.Once? || a.Remove?)
    ensures Inv(Step(s, a))
  {
    match a
    case Add(name, l, prepend) => if Exists(s, l) { AddKeepsInv(s, name, l, prepend); }
    case Once(name, fn, prepend) => OnceKeepsInv(s, name, fn, prepend);
    case Remove(name, target) => RemoveKeepsInv(s, name, target);
  }

  lemma {:induction false} FrameKeepsInv(s: State, a: Action)
    requires Inv(s) && (a.Next? || a.Throw?)
    ensures Inv(Step(s, a))
  {
    if |s.frames| > 0 {
      NextKeepsInv(s);
      PopKeepsInv(s);
    }
  }

  lemma {:induction false} StartKeepsInv(s: State, a: Action)
    requires Inv(s) && (a.Emit? || a.Direct?)
    ensures Inv(Step(s, a))
  {
    match a
    case Emit(name) => EmitKeepsInv(s, name);
    case Direct(l) => if Exists(s, l) { DirectKeepsInv(s, l); }
  }

  function Run(s: State, acts: seq<Action>): State
    decreases |acts|
  {
    if |acts| == 0 then s else Run(Step(s, acts[0]), acts[1..])
  }

  lemma {:induction false} RunKeepsInv(s: State, acts: seq<Action>)
    requires Inv(s)
    ensures Inv(Run(s, acts))
    decreases |acts|
  {
    if |acts| > 0 {
      StepKeepsInv(s, acts[0]);
      RunKeepsInv(Step(s, acts[0]), acts[1..]);
    }
  }

  // ---------------------------------------------------------------------------------------------
  // Main results
  // ---------------------------------------------------------------------------------------------

  /**
   * In every run, however emits nest and whatever the listeners do, an emit calls the listeners that were present when
   * it began, in order: a prefix of them while it runs or when a listener throws, and all of them when it returns.
   */
  lemma {:induction false} EmitCallsThosePresent(init: State, acts: seq<Action>, name: Name, later: seq<Action>)
    requires Initial(init)
    ensures var s := Run(init, acts);
            var e, present, t := |s.started|, ListenersOf(s, name), Run(Step(s, Emit(name)), later);
            present != [] ==>
              && CallsOf(s.log, e) == [] && CallsOf(t.log, e) <= present
              && (e in t.returned ==> CallsOf(t.log, e) == present)
  {
    InitialInv(init);
    RunKeepsInv(init, acts);
    var s := Run(init, acts);
    if ListenersOf(s, name) != [] {
      EmitStarts(s, name);
      var s1 := Step(s, Emit(name));
      StepKeepsInv(s, Emit(name));
      RunKeepsInv(s1, later);
      StartedStays(s1, later);
      CallsSoFar(Run(s1, later), |s.started|);
    }
  }

  lemma {:induction false} EmitStarts(s: State, name: Name)
    requires Inv(s) && ListenersOf(s, name) != []
    ensures CallsOf(s.log, |s.started|) == []
    ensures Step(s, Emit(name)).started == s.started + [ListenersOf(s, name)]
    ensures var f := Step(s, Emit(name)).frames;
            |f| == |s.frames| + 1 && f[..|s.frames|] == s.frames && f[|s.frames|].emit == |s.started|
            && f[|s.frames|].next == 0
  {
  }

  lemma {:induction false} CallsSoFar(s: State, e: nat)
    requires Inv(s) && e < |s.started|
    ensures CallsOf(s.log, e) <= s.started[e] && (e in s.returned ==> CallsOf(s.log, e) == s.started[e])
  {
  }

  lemma {:induction false} StartedStays(s: State, acts: seq<Action>)
    ensures s.started <= Run(s, acts).started
    decreases |acts|
  {
    if |acts| > 0 {
      StartedGrows(s, acts[0]);
      StartedStays(Step(s, acts[0]), acts[1..]);
    }
  }

  lemma {:induction false} StartedGrows(s: State, a: Action)
    ensures s.started <= Step(s, a).started
  {
  }

  function Nexts(s: State, n: nat): State
    decreases n
  {
    if n == 0 then s else Nexts(Step(s, Next), n - 1)
  }

  /** The innermost emit calls its next listener, or returns. */
  ghost predicate Progress(s: State, t: State)
    requires |s.frames| > 0
  {
    var f := Top(s);
    && f.emit < |s.started| && f.next <= |s.started[f.emit]| && t.started == s.started
    && if f.next < |s.started[f.emit]| then
         && t.frames == Advanced(s) && t.returned == s.returned
         && |t.log| == |s.log| + 1 && t.log[..|s.log|] == s.log
         && t.log[|s.log|].emit == Some(f.emit) && t.log[|s.log|].listener == s.started[f.emit][f.next]
       else t.frames == s.frames[..|s.frames| - 1] && t.returned == s.returned + {f.emit} && t.log == s.log
  }

  lemma {:induction false} NextProgress(s: State)
    requires Inv(s) && |s.frames| > 0
    ensures Progress(s, Step(s, Next))
  {
    TopInArrays(s);
    assert FrameOk(s, Top(s));
    if Top(s).next < |s.started[Top(s).emit]| {
      RemoveLeavesCopies(s, NextHome(s), NextListener(s));
      if NextListener(s).Wrapper? && NextListener(s).id !in s.fired {
        WrapperCall(s);
      }
    }
  }

  function NextHome(s: State): Name
    requires |s.frames| > 0 && Top(s).next < |Items(s, Many(Top(s).ref))|
  {
    if NextListener(s).Wrapper? then NextListener(s).home else Name("")
  }

  /** The listeners that the innermost emit has still to call. */
  function Remaining(s: State): int {
    if |s.frames| > 0 && Top(s).emit < |s.started| then |s.started[Top(s).emit]| - Top(s).next else -1
  }

  lemma {:induction false} ProgressSteps(s: State, t: State)
    requires |s.frames| > 0 && Progress(s, t)
    ensures var n := |s.frames| - 1;
            && Remaining(s) >= 0
            && if Remaining(s) == 0 then t.frames == s.frames[..n] && Top(s).emit in t.returned
               else |t.frames| == n + 1 && t.frames[..n] == s.frames[..n] && t.frames[n].emit == s.frames[n].emit
                    && Remaining(t) == Remaining(s) - 1
  {
    AdvancedFrames(s);
  }

  lemma {:induction false} AdvancedFrames(s: State)
    requires |s.frames| > 0
    ensures var n := |s.frames| - 1;
            && |Advanced(s)| == n + 1 && Advanced(s)[..n] == s.frames[..n]
            && Advanced(s)[n] == Top(s).(next := Top(s).next + 1)
  {
    Behind(s.frames[..|s.frames| - 1], [Top(s).(next := Top(s).next + 1)]);
  }

  /** The innermost emit has `n` listeners to call and is the only one above `below`. */
  ghost predicate Under(s: State, below: seq<Frame>, emit: nat, n: int) {
    && Inv(s) && |s.frames| == |below| + 1 && s.frames[..|below|] == below
    && s.frames[|below|].emit == emit && Remaining(s) == n
  }

  lemma {:induction false} NextUnder(s: State, below: seq<Frame>, emit: nat, n: nat)
    requires Under(s, below, emit, n)
    ensures var t := Step(s, Next);
            if n > 0 then Under(t, below, emit, n - 1) else t.frames == below && emit in t.returned
  {
    NextProgress(s);
    NextKeepsInv(s);
    ProgressUnder(s, Step(s, Next), below, emit, n);
  }

  lemma {:induction false} ProgressUnder(s: State, t: State, below: seq<Frame>, emit: nat, n: nat)
    requires |s.frames| == |below| + 1 && s.frames[..|below|] == below && s.frames[|below|].emit == emit
    requires Remaining(s) == n && Progress(s, t)
    ensures if n > 0 then |t.frames| == |below| + 1 && t.frames[..|below|] == below && t.frames[|below|].emit == emit
                          && Remaining(t) == n - 1
            else t.frames == below && emit in t.returned
  {
    ProgressSteps(s, t);
  }

  /** If the listeners just return, an emit under way comes to its end. */
  lemma {:induction false} EmitEnds(s: State, below: seq<Frame>, emit: nat, n: nat)
    requires Under(s, below, emit, n)
    ensures Nexts(s, n + 1).frames == below && emit in Nexts(s, n + 1).returned
    decreases n
  {
    var t := Step(s, Next);
    NextUnder(s, below, emit, n);
    NextsFirst(s, n);
    if n > 0 {
      EmitEnds(t, below, emit, n - 1);
    }
  }

  lemma {:induction false} NextsFirst(s: State, n: nat)
    ensures Nexts(s, n + 1) == Nexts(Step(s, Next), n) && Nexts(s, 0) == s && Nexts(Step(s, Next), 0) == Step(s, Next)
  {
  }

  /** An emit whose listeners just return calls all of them and leaves the emits around it as they were. */
  lemma {:induction false} EmitCallsAll(init: State, acts: seq<Action>, name: Name)
    requires Initial(init)
    ensures var s := Run(init, acts);
            var present := ListenersOf(s, name);
            var t := Nexts(Step(s, Emit(name)), |present| + 1);
            present != [] ==> CallsOf(t.log, |s.started|) == present && t.frames == s.frames
  {
    var s := Run(init, acts);
    InitialInv(init);
    RunKeepsInv(init, acts);
    if ListenersOf(s, name) != [] {
      var n := |ListenersOf(s, name)|;
      EmitSettles(s, name, n);
      EmitCallsThosePresent(init, acts, name, Only(Next, n + 1));
    }
  }

  lemma {:induction false} EmitSettles(s: State, name: Name, n: nat)
    requires Inv(s) && n == |ListenersOf(s, name)| > 0
    ensures var t := Nexts(Step(s, Emit(name)), n + 1);
            && t.frames == s.frames && |s.started| in t.returned
            && t == Run(Step(s, Emit(name)), Only(Next, n + 1))
  {
    EmitUnder(s, name);
    EmitEnds(Step(s, Emit(name)), s.frames, |s.started|, n);
    NextsIsRun(Step(s, Emit(name)), n + 1);
  }

  lemma {:induction false} EmitUnder(s: State, name: Name)
    requires Inv(s) && ListenersOf(s, name) != []
    ensures Under(Step(s, Emit(name)), s.frames, |s.started|, |ListenersOf(s, name)|)
  {
    StepKeepsInv(s, Emit(name));
    EmitStarts(s, name);
  }

  function Only(a: Action, n: nat): seq<Action> {
    if n == 0 then [] else [a] + Only(a, n - 1)
  }

  lemma {:induction false} NextsIsRun(s: State, n: nat)
    ensures Nexts(s, n) == Run(s, Only(Next, n))
    decreases n
  {
    if n > 0 {
      Behind([Next], Only(Next, n - 1));
      NextsIsRun(Step(s, Next), n - 1);
    }
  }

  /** Listeners are added and events emitted; nothing is taken off. */
  predicate OnlyAdds(acts: seq<Action>) {
    forall a :: a in acts ==> (a.Add? && a.listener.Plain?) || a.Emit? || a.Next? || a.Throw?
  }

  /** What the action adds at the end, or in front, of the event. */
  function AddedEnd(a: Action, name: Name, front: bool): seq<Listener> {
    if a.Add? && a.name == name && a.prepend == front then [a.listener] else []
  }

  /** The listeners added at the end of an event, first to last. */
  function Appended(acts: seq<Action>, name: Name): seq<Listener> {
    if |acts| == 0 then []
    else Appended(acts[..|acts| - 1], name) + AddedEnd(acts[|acts| - 1], name, false)
  }

  /** The listeners added in front of an event, last to first. */
  function Prepended(acts: seq<Action>, name: Name): seq<Listener> {
    if |acts| == 0 then []
    else AddedEnd(acts[|acts| - 1], name, true) + Prepended(acts[..|acts| - 1], name)
  }

  /** All listeners ever made are plain functions. */
  ghost predicate AllPlain(s: State) {
    Inv(s) && |s.made| == 0
  }

  lemma {:induction false} AddingStep(s: State, a: Action, name: Name)
    requires AllPlain(s) && OnlyAdds([a])
    ensures AllPlain(Step(s, a))
    ensures ListenersOf(Step(s, a), name) == AddedEnd(a, name, true) + ListenersOf(s, name) + AddedEnd(a, name, false)
  {
    assert a in [a];
    StepKeepsInv(s, a);
    if a.Add? {
      AddingList(s, a.name, a.listener, a.prepend, name);
    } else {
      WithNothing(ListenersOf(s, name), []);
      if a.Emit? {
        EmitLeavesLists(s, a.name, name);
      } else {
        FrameLeavesLists(s, a, name);
      }
    }
  }

  lemma {:induction false} AddingList(s: State, to: Name, l: Listener, prepend: bool, name: Name)
    requires Normal(s)
    ensures var a := Add(to, l, prepend);
            && DoAdd(s, to, l, prepend).made == s.made
            && ListenersOf(DoAdd(s, to, l, prepend), name)
            == AddedEnd(a, name, true) + ListenersOf(s, name) + AddedEnd(a, name, false)
  {
    AddRefines(s, to, l, prepend);
    WithNothing(ListenersOf(s, name), []);
    WithNothing([l] + ListenersOf(s, name), []);
  }

  lemma {:induction false} FrameLeavesLists(s: State, a: Action, name: Name)
    requires AllPlain(s) && (a.Next? || a.Throw?)
    ensures Step(s, a).made == s.made && ListenersOf(Step(s, a), name) == ListenersOf(s, name)
  {
    if |s.frames| > 0 {
      NextIsPlain(s);
    }
  }

  lemma {:induction false} EmitLeavesLists(s: State, emitted: Name, name: Name)
    requires Normal(s)
    ensures ListenersOf(DoEmit(s, emitted), name) == ListenersOf(s, name)
  {
    assert IsArray(s, name) ==> ArrayFor(s, s.events[name].ref, name);
  }

  lemma {:induction false} NextIsPlain(s: State)
    requires Known(s) && Framed(s) && |s.made| == 0 && |s.frames| > 0
    ensures DoNext(s).events == s.events && DoNext(s).arrays == s.arrays && DoNext(s).made == s.made
  {
    TopInArrays(s);
    assert AllMade(s.made, s.arrays[Top(s).ref]);
  }

  lemma {:induction false} RunOneMore(s: State, acts: seq<Action>, a: Action)
    ensures Run(s, acts + [a]) == Step(Run(s, acts), a)
    decreases |acts|
  {
    if |acts| == 0 {
      assert (acts + [a])[1..] == [];
    } else {
      assert (acts + [a])[1..] == acts[1..] + [a];
      RunOneMore(Step(s, acts[0]), acts[1..], a);
    }
  }

  lemma {:induction false} Regroup(a: seq<Listener>, b: seq<Listener>, c: seq<Listener>, d: seq<Listener>)
    ensures a + (b + c) + d == (a + b) + (c + d)
  {
  }

  /** The list of an event: those added in front, the newest first, and those added at the end, the oldest first. */
  lemma {:induction false} ListInOrder(init: State, acts: seq<Action>, name: Name)
    requires Initial(init) && OnlyAdds(acts)
    ensures AllPlain(Run(init, acts))
    ensures ListenersOf(Run(init, acts), name) == Prepended(acts, name) + Appended(acts, name)
    decreases |acts|
  {
    if |acts| == 0 {
      InitialInv(init);
    } else {
      var n := |acts| - 1;
      var before, a := acts[..n], acts[n];
      OneMore(acts, n);
      Whole(acts);
      assert a in [a];
      ListInOrder(init, before, name);
      RunOneMore(init, before, a);
      AddingStep(Run(init, before), a, name);
      Regroup(AddedEnd(a, name, true), Prepended(before, name), Appended(before, name), AddedEnd(a, name, false));
    }
  }

  /** So an emit calls the listeners in the order of their registration, those added in front before all others. */
  lemma {:induction false} CallsInOrder(init: State, acts: seq<Action>, name: Name, later: seq<Action>)
    requires Initial(init) && OnlyAdds(acts)
    ensures var s, order := Run(init, acts), Prepended(acts, name) + Appended(acts, name);
            var t := Run(Step(s, Emit(name)), later);
            order != [] ==>
              && CallsOf(t.log, |s.started|) <= order
              && (|s.started| in t.returned ==> CallsOf(t.log, |s.started|) == order)
  {
    ListInOrder(init, acts, name);
    EmitCallsThosePresent(init, acts, name, later);
  }

  /** In every run, a once listener runs at the first call of its wrapper and never again. */
  lemma {:induction false} OnceRunsAtFirstCall(init: State, acts: seq<Action>)
    requires Initial(init)
    ensures FirstCallsRun(Run(init, acts).log)
  {
    InitialInv(init);
    RunKeepsInv(init, acts);
  }

  /** `once` makes a wrapper that is registered nowhere and that has never been called. */
  lemma {:induction false} OnceIsFresh(init: State, acts: seq<Action>, name: Name, fn: nat, prepend: bool)
    requires Initial(init)
    ensures var s := Run(init, acts);
            var w, t := Wrapper(|s.made|, name, fn), Step(s, Once(name, fn, prepend));
            && ListenersOf(t, name) == (if prepend then [w] + ListenersOf(s, name) else ListenersOf(s, name) + [w])
            && w.id !in IdsOf(s.log)
            && (forall n, l :: l in ListenersOf(s, n) && l.Wrapper? ==> l.id != w.id)
            && (forall n :: n != name ==> ListenersOf(t, n) == ListenersOf(s, n))
  {
    var s := Run(init, acts);
    InitialInv(init);
    RunKeepsInv(init, acts);
    OnceAdds(s, name, fn, prepend);
    WrappersBelow(s);
  }

  lemma {:induction false} OnceAdds(s: State, name: Name, fn: nat, prepend: bool)
    requires Normal(s)
    ensures var w, t, ls := Wrapper(|s.made|, name, fn), DoOnce(s, name, fn, prepend), ListenersOf(s, name);
            && ListenersOf(t, name) == (if prepend then [w] + ls else ls + [w])
            && forall n :: n != name ==> ListenersOf(t, n) == ListenersOf(s, n)
  {
    var w := Wrapper(|s.made|, name, fn);
    var s1 := s.(made := s.made + [w]);
    SameStore(s, s1);
    AddRefines(s1, name, w, prepend);
    assert forall n :: ListenersOf(s1, n) == ListenersOf(s, n);
  }

  lemma {:induction false} WrappersBelow(s: State)
    requires Known(s) && Normal(s)
    ensures forall n, l :: l in ListenersOf(s, n) && l.Wrapper? ==> l.id < |s.made|
  {
    forall n, l | l in ListenersOf(s, n) && l.Wrapper?
      ensures l.id < |s.made|
    {
      ListenersMade(s, n);
    }
  }

  // ---------------------------------------------------------------------------------------------
  // The emitter object
  // ---------------------------------------------------------------------------------------------

  /** The search of `removeListener`, from behind. */
  method FindLast(ls: seq<Listener>, target: Listener) returns (at: int)
    ensures at == LastIndex(ls, target)
  {
    at := |ls| - 1;
    while at >= 0 && !Stands(ls[at], target)
      invariant -1 <= at < |ls|
      invariant forall i :: at < i < |ls| ==> !Stands(ls[i], target)
    {
      at := at - 1;
    }
  }

  class Emitter {
    var events: map<Name, Slot>
    var eventsCount: int
    var arrays: map<Ref, seq<Listener>>
    var nextRef: nat
    var made: seq<Listener>
    var fired: set<nat>
    var frames: seq<Frame>
    ghost var owner: map<Ref, Name>
    var started: seq<seq<Listener>>     // history, for the numbers of the emits
    ghost var returned: set<nat>
    ghost var log: seq<Call>

    ghost function Abs(): State
      reads this
    {
      State(events, eventsCount, arrays, nextRef, made, fired, frames, owner, started, returned, log)
    }

    ghost predicate Valid()
      reads this
    {
      Inv(Abs())
    }

    constructor ()
      ensures Valid() && Initial(Abs())
    {
      events, eventsCount, arrays, nextRef, made, fired, frames := map[], 0, map[], 0, [], {}, [];
      owner, started, returned, log := map[], [], {}, [];
      new;
      InitialInv(Abs());
    }

    method AddListener(name: Name, l: Listener, prepend: bool)
      requires Valid() && Exists(Abs(), l)
      modifies `events, `eventsCount, `arrays, `nextRef, `owner
      ensures Valid() && Abs() == Step(old(Abs()), Add(name, l, prepend))
      ensures var ls := old(ListenersOf(Abs(), name));
              ListenersOf(Abs(), name) == if prepend then [l] + ls else ls + [l]
    {
      AddRefines(Abs(), name, l, prepend);
      AddKeepsInv(Abs(), name, l, prepend);
      PutOn(name, l, prepend);
    }

    method PutOn(name: Name, l: Listener, prepend: bool)
      requires Normal(Abs())
      modifies `events, `eventsCount, `arrays, `nextRef, `owner
      ensures Abs() == DoAdd(old(Abs()), name, l, prepend)
    {
      if name !in events {
        events, eventsCount := events[name := Single(l)], eventsCount + 1;
      } else if events[name].Single? {
        var o, ref := events[name].listener, Ref(nextRef);
        ghost var both := Added([o], l, prepend);
        assert both == if prepend then [l, o] else [o, l];
        arrays, events := arrays[ref := if prepend then [l, o] else [o, l]], events[name := Many(ref)];
        nextRef, owner := nextRef + 1, owner[ref := name];
      } else {
        assert IsArray(Abs(), name);
        var ref := events[name].ref;
        arrays := arrays[ref := if prepend then [l] + arrays[ref] else arrays[ref] + [l]];
      }
    }

    method RemoveListener(name: Name, target: Listener)
      requires Valid()
      modifies `events, `eventsCount, `arrays
      ensures Valid() && Abs() == Step(old(Abs()), Remove(name, target))
      ensures ListenersOf(Abs(), name) == WithoutLast(old(ListenersOf(Abs(), name)), target)
    {
      RemoveRefines(Abs(), name, target);
      StepKeepsInv(Abs(), Remove(name, target));
      TakeOff(name, target);
    }

    method TakeOff(name: Name, target: Listener)
      requires Normal(Abs())
      modifies `events, `eventsCount, `arrays
      ensures Abs() == DoRemove(old(Abs()), name, target)
    {
      if name in events {
        match events[name] {
          case Single(l) =>
            if Stands(l, target) {
              eventsCount, events := eventsCount - 1, events - {name};
            }
          case Many(ref) =>
            assert IsArray(Abs(), name);
            var at := FindLast(arrays[ref], target);
            if at >= 0 {
              SpliceOne(ref, at);
              if |arrays[ref]| == 1 {
                events := events[name := Single(arrays[ref][0])];
              }
            }
        }
      }
    }

    /** Moves the tail of an array one place down, in place, and drops the last element. */
    method SpliceOne(ref: Ref, at: nat)
      requires ref in arrays && at < |arrays[ref]|
      modifies `arrays
      ensures arrays == old(arrays)[ref := Cut(old(arrays[ref]), at)]
    {
      ghost var was, ls := arrays, arrays[ref];
      var i := at;
      while i + 1 < |arrays[ref]|
        invariant ref in arrays && arrays == was[ref := arrays[ref]] && at <= i < |ls| == |arrays[ref]|
        invariant forall k :: 0 <= k < |ls| && (k < at || i < k) ==> arrays[ref][k] == ls[k]
        invariant forall k :: at <= k < i ==> arrays[ref][k] == ls[k + 1]
        decreases |ls| - i
      {
        arrays := arrays[ref := arrays[ref][i := arrays[ref][i + 1]]];
        i := i + 1;
      }
      arrays := arrays[ref := arrays[ref][..|arrays[ref]| - 1]];
      assert arrays[ref] == Cut(ls, at);
    }

    method Once(name: Name, fn: nat, prepend: bool) returns (wrapper: Listener)
      requires Valid()
      modifies `events, `eventsCount, `arrays, `nextRef, `owner, `made
      ensures Valid() && Abs() == Step(old(Abs()), Action.Once(name, fn, prepend))
      ensures wrapper == Wrapper(|old(made)|, name, fn) && wrapper.id !in fired
    {
      wrapper := Wrapper(|made|, name, fn);
      MakeKeepsInv(Abs(), name, fn);
      made := made + [wrapper];
      AddListener(name, wrapper, prepend);
    }

    /** `arrayClone`, or the single function. */
    method CopyOf(name: Name) returns (copy: seq<Listener>)
      requires Normal(Abs()) && name in events
      ensures copy == ListenersOf(Abs(), name)
    {
      if events[name].Single? {
        return [events[name].listener];
      }
      assert IsArray(Abs(), name);
      var shared := arrays[events[name].ref];
      copy := [];
      for i := 0 to |shared|
        invariant copy == shared[..i]
      {
        copy := copy + [shared[i]];
      }
    }

    /** `emit` begins: it copies the listeners of the event. */
    method Begin(name: Name)
      requires Valid()
      modifies `arrays, `nextRef, `frames, `started
      ensures Valid() && Abs() == Step(old(Abs()), Emit(name))
    {
      EmitKeepsInv(Abs(), name);
      if name in events {
        var copy := CopyOf(name);
        PushFrame(copy);
      }
    }

    method PushFrame(copy: seq<Listener>)
      modifies `arrays, `nextRef, `frames, `started
      ensures Abs() == Entered(old(Abs()), copy)
    {
      frames := frames + [Frame(|started|, Ref(nextRef), 0)];
      started := started + [copy];
      arrays, nextRef := arrays[Ref(nextRef) := copy], nextRef + 1;
    }

    /** A listener is called, by an emit or by user code. */
    method CallListener(ghost emit: Option<nat>, l: Listener) returns (ran: bool)
      requires Normal(Abs()) && Known(Abs()) && Exists(Abs(), l)
      modifies `events, `eventsCount, `arrays, `fired, `log
      ensures Abs() == Invoke(old(Abs()), emit, l)
      ensures ran == !(l.Wrapper? && l.id in old(fired))
    {
      ran := !(l.Wrapper? && l.id in fired);
      if l.Wrapper? && ran {
        TakeOff(l.home, l);
        fired := fired + {l.id};
      }
      log := log + [Call(emit, l, ran)];
    }

    /** The innermost emit calls its next listener, or returns. */
    method CallNext()
      requires Valid() && |frames| > 0
      modifies `events, `eventsCount, `arrays, `fired, `log, `frames, `returned
      ensures Valid() && Abs() == Step(old(Abs()), Next)
    {
      ghost var s := Abs();
      TopInArrays(s);
      GoOn();
      NextValid(s, Abs());
    }

    method GoOn()
      requires Normal(Abs()) && Known(Abs()) && |frames| > 0 && frames[|frames| - 1].ref in arrays
      modifies `events, `eventsCount, `arrays, `fired, `log, `frames, `returned
      ensures Abs() == DoNext(old(Abs()))
    {
      var f := frames[|frames| - 1];
      if f.next >= |arrays[f.ref]| {
        frames := frames[..|frames| - 1];
        returned := returned + {f.emit};
      } else {
        assert AllMade(made, arrays[f.ref]);
        SameStore(Abs(), Abs().(frames := Advanced(Abs())));
        frames := frames[..|frames| - 1] + [f.(next := f.next + 1)];
        var _ := CallListener(Some(f.emit), arrays[f.ref][f.next]);
      }
    }
  }
}
