/**
 * The reactive core: effects, the dependency graph kept in both directions, and the proxy traps of plain objects.
 * A run is a sequence of actions; what an effect has read and seen is defined on the run itself, and the graph and
 * the triggers are proved against it.
 */
module Reactive {
  import opened Options
  import opened Seqs

  datatype Effect = Effect(id: nat)
  datatype Target = Target(id: nat)

  /** Property keys: strings, well-known symbols, and other symbols. */
  datatype Key = Name(name: string) | Builtin(id: nat) | Symbol(id: nat)

  /** What an effect may depend on: one property of an object, or its list of keys. */
  datatype Dep = Prop(target: Target, key: Key) | Iterate(target: Target)

  datatype Val = Undefined | NaN | Value(id: nat)

  /** A plain object: its own keys in insertion order, and their values. */
  datatype Obj = Obj(keys: seq<Key>, vals: map<Key, Val>)

  datatype State = State(
    depSets: map<Dep, set<Effect>>,   // who depends on what
    effDeps: map<Effect, seq<Dep>>,   // what each effect depends on
    stopped: set<Effect>,
    stack: seq<Effect>,
    current: Option<Effect>,
    tracking: bool,
    trackStack: seq<bool>,
    store: map<Target, Obj>,
    recursive: set<Effect>)           // the effects that may trigger themselves

  datatype Action =
    | Enter(effect: Effect) | Exit | Pause | Reset | Stop(effect: Effect)
    | Get(target: Target, key: Key) | Has(target: Target, key: Key) | OwnKeys(target: Target)
    | Set(target: Target, key: Key, value: Val) | Delete(target: Target, key: Key)

  // ---------------------------------------------------------------------------------------------
  // Values and objects
  // ---------------------------------------------------------------------------------------------

  /** `===`. */
  predicate StrictEq(a: Val, b: Val) {
    a == b && a != NaN
  }

  /** The change test of the set trap. */
  predicate HasChanged(new_: Val, old_: Val) {
    !StrictEq(new_, old_) && (StrictEq(new_, new_) || StrictEq(old_, old_))
  }

  lemma {:induction false} HasChangedIsDifference(a: Val, b: Val)
    ensures HasChanged(a, b) <==> a != b
  {
  }

  function ObjOf(s: State, t: Target): Obj {
    if t in s.store then s.store[t] else Obj([], map[])
  }

  function Read(o: Obj, k: Key): Val {
    if k in o.vals then o.vals[k] else Undefined
  }

  function Without<T(==)>(s: seq<T>, x: T): seq<T> {
    if |s| == 0 then [] else if s[0] == x then Without(s[1..], x) else [s[0]] + Without(s[1..], x)
  }

  function Written(o: Obj, k: Key, v: Val): Obj {
    Obj(if k in o.vals then o.keys else o.keys + [k], o.vals[k := v])
  }

  function Deleted(o: Obj, k: Key): Obj {
    if k in o.vals then Obj(Without(o.keys, k), o.vals - {k}) else o
  }

  // ---------------------------------------------------------------------------------------------
  // The dependency graph
  // ---------------------------------------------------------------------------------------------

  function SetOf(s: State, d: Dep): set<Effect> {
    if d in s.depSets then s.depSets[d] else {}
  }

  function DepsOf(s: State, e: Effect): seq<Dep> {
    if e in s.effDeps then s.effDeps[e] else []
  }

  /** Takes `e` out of the sets of all its dependencies. */
  function DeleteFrom(sets: map<Dep, set<Effect>>, deps: seq<Dep>, e: Effect): map<Dep, set<Effect>>
    decreases |deps|
  {
    if |deps| == 0 then sets
    else
      var d := deps[0];
      DeleteFrom(if d in sets then sets[d := sets[d] - {e}] else sets, deps[1..], e)
  }

  function Cleanup(s: State, e: Effect): State {
    s.(depSets := DeleteFrom(s.depSets, DepsOf(s, e), e), effDeps := s.effDeps[e := []])
  }

  /** A read registers the running effect, unless tracking is paused. */
  function Track(s: State, d: Dep): State {
    if !s.tracking || s.current.None? || s.current.value in SetOf(s, d) then s
    else
      var e := s.current.value;
      s.(depSets := s.depSets[d := SetOf(s, d) + {e}], effDeps := s.effDeps[e := DepsOf(s, e) + [d]])
  }

  predicate IsNonTrackable(name: string) {
    name == "__proto__" || name == "__v_isRef" || name == "__isVue"
  }

  predicate IsFlag(name: string) {
    name == "__v_isReactive" || name == "__v_isReadonly" || name == "__v_raw"
  }

  /** The keys whose reads the get trap registers. */
  predicate TracksGet(k: Key) {
    match k
    case Name(n) => !IsNonTrackable(n) && !IsFlag(n)
    case Builtin(_) => false
    case Symbol(_) => true
  }

  /** The keys whose membership tests the has trap registers. */
  predicate TracksHas(k: Key) {
    !k.Builtin?
  }

  /** The effects to notify when the dependencies `ds` change: all but the running one, unless it may recurse. */
  function Notified(s: State, ds: set<Dep>): set<Effect> {
    set d, e | d in ds && e in SetOf(s, d) && (s.current != Some(e) || e in s.recursive) :: e
  }

  /** The dependencies that a write touches. */
  function Touched(s: State, a: Action): set<Dep> {
    match a
    case Set(t, k, v) =>
      var o := ObjOf(s, t);
      if k !in o.vals then {Prop(t, k), Iterate(t)}
      else if HasChanged(v, o.vals[k]) then {Prop(t, k)}
      else {}
    case Delete(t, k) =>
      if k in ObjOf(s, t).vals then {Prop(t, k), Iterate(t)} else {}
    case _ => {}
  }

  function Triggered(s: State, a: Action): set<Effect> {
    Notified(s, Touched(s, a))
  }

  function Top(stack: seq<Effect>): Option<Effect> {
    if |stack| == 0 then None else Some(stack[|stack| - 1])
  }

  /** The effect starts running: it is neither stopped nor running already. */
  predicate Starts(s: State, e: Effect) {
    e !in s.stopped && e !in s.stack
  }

  function ResetTracking(s: State): State {
    if |s.trackStack| == 0 then s.(tracking := true)
    else s.(tracking := s.trackStack[|s.trackStack| - 1], trackStack := s.trackStack[..|s.trackStack| - 1])
  }

  function Step(s: State, a: Action): State {
    match a
    case Enter(e) =>
      if !Starts(s, e) then s
      else
        var c := Cleanup(s, e);
        c.(trackStack := c.trackStack + [c.tracking], tracking := true, stack := c.stack + [e], current := Some(e))
    case Exit =>
      if |s.stack| == 0 then s
      else
        var stack := s.stack[..|s.stack| - 1];
        ResetTracking(s.(stack := stack)).(current := Top(stack))
    case Pause => s.(trackStack := s.trackStack + [s.tracking], tracking := false)
    case Reset => ResetTracking(s)
    case Stop(e) => if e in s.stopped then s else Cleanup(s, e).(stopped := s.stopped + {e})
    case Get(t, k) => if TracksGet(k) then Track(s, Prop(t, k)) else s
    case Has(t, k) => if TracksHas(k) then Track(s, Prop(t, k)) else s
    case OwnKeys(t) => Track(s, Iterate(t))
    case Set(t, k, v) => s.(store := s.store[t := Written(ObjOf(s, t), k, v)])
    case Delete(t, k) => s.(store := s.store[t := Deleted(ObjOf(s, t), k)])
  }

  // ---------------------------------------------------------------------------------------------
  // The graph invariant
  // ---------------------------------------------------------------------------------------------

  /** Both directions of the graph agree, without duplicates, and the running effect tops a stack without repeats. */
  ghost predicate GraphInv(s: State) {
    && (forall e, d :: e in SetOf(s, d) <==> d in DepsOf(s, e))
    && (forall e :: Distinct(DepsOf(s, e)))
    && Distinct(s.stack) && s.current == Top(s.stack)
  }

  lemma {:induction false} DeleteFromEffect(sets: map<Dep, set<Effect>>, deps: seq<Dep>, e: Effect)
    ensures DeleteFrom(sets, deps, e).Keys == sets.Keys
    ensures forall d :: d in sets ==> DeleteFrom(sets, deps, e)[d] == if d in deps then sets[d] - {e} else sets[d]
    decreases |deps|
  {
    if |deps| > 0 {
      var d := deps[0];
      DeleteFromEffect(if d in sets then sets[d := sets[d] - {e}] else sets, deps[1..], e);
    }
  }

  /** Cleaning up removes exactly the edges of `e`. */
  lemma {:induction false} CleanupEdges(s: State, e: Effect)
    requires GraphInv(s)
    ensures DepsOf(Cleanup(s, e), e) == []
    ensures forall e', d :: e' in SetOf(Cleanup(s, e), d) <==> e' != e && e' in SetOf(s, d)
    ensures GraphInv(Cleanup(s, e))
  {
    var c := Cleanup(s, e);
    DeleteFromEffect(s.depSets, DepsOf(s, e), e);
    forall e', d
      ensures e' in SetOf(c, d) <==> e' != e && e' in SetOf(s, d)
    {
      assert e in SetOf(s, d) <==> d in DepsOf(s, e);
    }
    forall e'
      ensures Distinct(DepsOf(c, e')) && (e' != e ==> DepsOf(c, e') == DepsOf(s, e'))
    {
      if e' != e {
        assert DepsOf(c, e') == DepsOf(s, e');
      }
    }
  }

  lemma {:induction false} TrackKeepsInv(s: State, d: Dep)
    requires GraphInv(s)
    ensures GraphInv(Track(s, d))
  {
    var s' := Track(s, d);
    if s' != s {
      var e := s.current.value;
      assert d !in DepsOf(s, e);
      forall e', d'
        ensures e' in SetOf(s', d') <==> d' in DepsOf(s', e')
      {
        assert e' in SetOf(s, d') <==> d' in DepsOf(s, e');
      }
      forall e'
        ensures Distinct(DepsOf(s', e'))
      {
        assert Distinct(DepsOf(s, e'));
      }
    }
  }

  lemma {:induction false} EnterKeepsInv(s: State, e: Effect)
    requires GraphInv(s)
    ensures GraphInv(Step(s, Enter(e)))
  {
    CleanupEdges(s, e);
    if Starts(s, e) {
      SameGraph(Cleanup(s, e), Step(s, Enter(e)));
    }
  }

  lemma {:induction false} StopKeepsInv(s: State, e: Effect)
    requires GraphInv(s)
    ensures GraphInv(Step(s, Stop(e)))
  {
    CleanupEdges(s, e);
    if e !in s.stopped {
      SameGraph(Cleanup(s, e), Step(s, Stop(e)));
    }
  }

  predicate IsRead(a: Action) {
    a.Get? || a.Has? || a.OwnKeys?
  }

  predicate IsQuiet(a: Action) {
    a.Exit? || a.Pause? || a.Reset? || a.Set? || a.Delete?
  }

  lemma {:induction false} ReadKeepsInv(s: State, a: Action)
    requires GraphInv(s) && IsRead(a)
    ensures GraphInv(Step(s, a))
  {
    match a
    case Get(t, k) => TrackKeepsInv(s, Prop(t, k));
    case Has(t, k) => TrackKeepsInv(s, Prop(t, k));
    case OwnKeys(t) => TrackKeepsInv(s, Iterate(t));
  }

  lemma {:induction false} QuietKeepsGraph(s: State, a: Action)
    requires IsQuiet(a)
    ensures Step(s, a).depSets == s.depSets && Step(s, a).effDeps == s.effDeps && Step(s, a).stopped == s.stopped
  {
  }

  lemma {:induction false} QuietKeepsInv(s: State, a: Action)
    requires GraphInv(s) && IsQuiet(a)
    ensures GraphInv(Step(s, a))
  {
    QuietKeepsGraph(s, a);
    SameGraph(s, Step(s, a));
  }

  lemma {:induction false} StepKeepsInv(s: State, a: Action)
    requires GraphInv(s)
    ensures GraphInv(Step(s, a))
  {
    if a.Enter? {
      EnterKeepsInv(s, a.effect);
    } else if a.Stop? {
      StopKeepsInv(s, a.effect);
    } else if IsRead(a) {
      ReadKeepsInv(s, a);
    } else {
      QuietKeepsInv(s, a);
    }
  }

  lemma {:induction false} SameGraph(s: State, s': State)
    requires GraphInv(s) && s'.depSets == s.depSets && s'.effDeps == s.effDeps
    requires Distinct(s'.stack) && s'.current == Top(s'.stack)
    ensures GraphInv(s')
  {
    assert forall d :: SetOf(s', d) == SetOf(s, d);
    assert forall e :: DepsOf(s', e) == DepsOf(s, e);
  }

  // ---------------------------------------------------------------------------------------------
  // Runs
  // ---------------------------------------------------------------------------------------------

  type Run = seq<Action>

  /** Nothing tracked yet; any objects, any choice of self-triggering effects. */
  predicate IsInitial(s: State) {
    && s.depSets == map[] && s.effDeps == map[] && s.stopped == {} && |s.stack| == 0
    && s.current == None && s.tracking && |s.trackStack| == 0
  }

  function Exec(init: State, run: Run): State {
    if |run| == 0 then init else Step(Exec(init, run[..|run| - 1]), run[|run| - 1])
  }

  lemma {:induction false} RunKeepsInv(init: State, run: Run)
    requires IsInitial(init)
    ensures GraphInv(Exec(init, run))
  {
    if |run| == 0 {
      forall e, d
        ensures e !in SetOf(init, d) && d !in DepsOf(init, e)
      {
      }
    } else {
      RunKeepsInv(init, run[..|run| - 1]);
      StepKeepsInv(Exec(init, run[..|run| - 1]), run[|run| - 1]);
    }
  }

  /** The names that reads never depend on: the prototype and what the library itself keeps on objects. */
  const INTERNAL := {"__proto__", "__v_isRef", "__isVue", "__v_isReactive", "__v_isReadonly", "__v_raw"}

  /** A key that user code has of its own. */
  predicate Ordinary(k: Key) {
    k.Symbol? || (k.Name? && k.name !in INTERNAL)
  }

  /** The get trap registers exactly the reads of ordinary keys, and the has trap those of all keys but the built-in. */
  lemma {:induction false} TracksOrdinary(k: Key)
    ensures TracksGet(k) <==> Ordinary(k)
    ensures TracksHas(k) <==> !k.Builtin?
  {
  }

  /** What an action asks about. */
  function Asks(a: Action): set<Dep> {
    match a
    case Get(t, k) => if Ordinary(k) then {Prop(t, k)} else {}
    case Has(t, k) => if !k.Builtin? then {Prop(t, k)} else {}
    case OwnKeys(t) => {Iterate(t)}
    case _ => {}
  }

  predicate Listens(s: State, e: Effect) {
    s.tracking && s.current == Some(e)
  }

  /** What `e` has read since its last start or its stop, while it was the running effect and tracking was on. */
  function Reads(init: State, run: Run, e: Effect): set<Dep> {
    if |run| == 0 then {}
    else
      var before, a := run[..|run| - 1], run[|run| - 1];
      NextReads(Exec(init, before), a, e, Reads(init, before, e))
  }

  function NextReads(s: State, a: Action, e: Effect, deps: set<Dep>): set<Dep> {
    if (a == Enter(e) && Starts(s, e)) || (a == Stop(e) && e !in s.stopped) then {}
    else if Listens(s, e) then deps + Asks(a)
    else deps
  }

  lemma {:induction false} ExecOneMore(init: State, run: Run, a: Action, e: Effect)
    ensures Exec(init, run + [a]) == Step(Exec(init, run), a)
    ensures Reads(init, run + [a], e) == NextReads(Exec(init, run), a, e, Reads(init, run, e))
  {
    assert (run + [a])[..|run|] == run;
  }

  /** Adding a dependency to the running effect's list, or nothing. */
  lemma {:induction false} TrackDeps(s: State, d: Dep, e: Effect)
    requires GraphInv(s)
    ensures Elems(DepsOf(Track(s, d), e)) == Elems(DepsOf(s, e)) + if Listens(s, e) then {d} else {}
  {
    assert e in SetOf(s, d) <==> d in DepsOf(s, e);
  }

  lemma {:induction false} CleanupDeps(s: State, a: Action, e: Effect)
    requires GraphInv(s) && (a.Enter? || a.Stop?)
    ensures Elems(DepsOf(Step(s, a), e)) == NextReads(s, a, e, Elems(DepsOf(s, e)))
  {
    CleanupEdges(s, a.effect);
  }

  lemma {:induction false} ReadDeps(s: State, a: Action, e: Effect)
    requires GraphInv(s) && IsRead(a)
    ensures Elems(DepsOf(Step(s, a), e)) == NextReads(s, a, e, Elems(DepsOf(s, e)))
  {
    match a
    case Get(t, k) => TrackDeps(s, Prop(t, k), e); TracksOrdinary(k);
    case Has(t, k) => TrackDeps(s, Prop(t, k), e); TracksOrdinary(k);
    case OwnKeys(t) => TrackDeps(s, Iterate(t), e);
  }

  lemma {:induction false} StepDeps(s: State, a: Action, e: Effect)
    requires GraphInv(s)
    ensures Elems(DepsOf(Step(s, a), e)) == NextReads(s, a, e, Elems(DepsOf(s, e)))
  {
    if a.Enter? || a.Stop? {
      CleanupDeps(s, a, e);
    } else if IsRead(a) {
      ReadDeps(s, a, e);
    } else {
      QuietKeepsGraph(s, a);
    }
  }

  lemma {:induction false} StoppedStays(s: State, a: Action)
    ensures s.stopped <= Step(s, a).stopped
  {
  }

  /** After any run, an effect depends on exactly what it has read since its last start or its stop. */
  lemma {:induction false} DepsAreReads(init: State, run: Run, e: Effect)
    requires IsInitial(init)
    ensures Elems(DepsOf(Exec(init, run), e)) == Reads(init, run, e)
  {
    if |run| > 0 {
      var before, a := run[..|run| - 1], run[|run| - 1];
      var s := Exec(init, before);
      RunKeepsInv(init, before);
      DepsAreReads(init, before, e);
      StepDeps(s, a, e);
    }
  }

  // ---------------------------------------------------------------------------------------------
  // Observations
  // ---------------------------------------------------------------------------------------------

  datatype Seen = SawValue(target: Target, key: Key, value: Val) | SawHas(target: Target, key: Key, has: bool)
                | SawKeys(target: Target, keys: seq<Key>)

  function About(o: Seen): Dep {
    match o
    case SawValue(t, k, _) => Prop(t, k)
    case SawHas(t, k, _) => Prop(t, k)
    case SawKeys(t, _) => Iterate(t)
  }

  /** A fresh look at the objects would show the same. */
  predicate StillTrue(s: State, o: Seen) {
    match o
    case SawValue(t, k, v) => Read(ObjOf(s, t), k) == v
    case SawHas(t, k, h) => (k in ObjOf(s, t).vals) == h
    case SawKeys(t, ks) => ObjOf(s, t).keys == ks
  }

  /** What a read shows. */
  function Shows(s: State, a: Action): set<Seen> {
    match a
    case Get(t, k) => if Ordinary(k) then {SawValue(t, k, Read(ObjOf(s, t), k))} else {}
    case Has(t, k) => if !k.Builtin? then {SawHas(t, k, k in ObjOf(s, t).vals)} else {}
    case OwnKeys(t) => {SawKeys(t, ObjOf(s, t).keys)}
    case _ => {}
  }

  /** What `e` has seen since its last start. */
  function Saw(init: State, run: Run, e: Effect): set<Seen> {
    if |run| == 0 then {}
    else
      var before, a := run[..|run| - 1], run[|run| - 1];
      var s := Exec(init, before);
      if a == Enter(e) && Starts(s, e) then {}
      else if Listens(s, e) then Saw(init, before, e) + Shows(s, a)
      else Saw(init, before, e)
  }

  /** `e` has been triggered since its last start. */
  predicate Told(init: State, run: Run, e: Effect) {
    if |run| == 0 then false
    else
      var before, a := run[..|run| - 1], run[|run| - 1];
      var s := Exec(init, before);
      if a == Enter(e) && Starts(s, e) then false
      else Told(init, before, e) || e in Triggered(s, a)
  }

  /** `e`, not allowed to trigger itself, has written to something it depends on since its last start. */
  predicate ChangedItself(init: State, run: Run, e: Effect) {
    if |run| == 0 then false
    else
      var before, a := run[..|run| - 1], run[|run| - 1];
      var s := Exec(init, before);
      if a == Enter(e) && Starts(s, e) then false
      else ChangedItself(init, before, e)
           || (s.current == Some(e) && e !in s.recursive && exists d :: d in Touched(s, a) && e in SetOf(s, d))
  }

  lemma {:induction false} SawWhatItRead(init: State, run: Run, e: Effect, o: Seen)
    requires o in Saw(init, run, e) && e !in Exec(init, run).stopped
    ensures About(o) in Reads(init, run, e)
  {
    var before, a := run[..|run| - 1], run[|run| - 1];
    StoppedStays(Exec(init, before), a);
    if o in Saw(init, before, e) {
      SawWhatItRead(init, before, e, o);
    }
  }

  /** A write that makes an observation untrue touches what the observation is about. */
  lemma {:induction false} ChangeTouches(s: State, a: Action, o: Seen)
    requires StillTrue(s, o) && !StillTrue(Step(s, a), o)
    ensures About(o) in Touched(s, a)
  {
  }

  /** A touched dependency reaches every effect in its set, except a running one that may not recurse. */
  lemma {:induction false} TouchReaches(s: State, a: Action, d: Dep, e: Effect)
    requires d in Touched(s, a) && e in SetOf(s, d)
    ensures e in Triggered(s, a) || (s.current == Some(e) && e !in s.recursive)
  {
  }

  /**
   * No missed update: in every run, an effect that is not stopped, has not been triggered since its last start and
   * has not changed its own dependencies still sees the world as it is.
   */
  lemma {:induction false} NoMissedUpdate(init: State, run: Run, e: Effect, o: Seen)
    requires IsInitial(init) && o in Saw(init, run, e) && e !in Exec(init, run).stopped
    requires !Told(init, run, e) && !ChangedItself(init, run, e)
    ensures StillTrue(Exec(init, run), o)
  {
    var before, a := run[..|run| - 1], run[|run| - 1];
    var s := Exec(init, before);
    StoppedStays(s, a);
    if o in Saw(init, before, e) {
      NoMissedUpdate(init, before, e, o);
      SawWhatItRead(init, before, e, o);
      DepsAreReads(init, before, e);
      RunKeepsInv(init, before);
      assert About(o) in DepsOf(s, e) && e in SetOf(s, About(o));
      if !StillTrue(Step(s, a), o) {
        ChangeTouches(s, a, o);
        TouchReaches(s, a, About(o), e);
      }
    }
  }

  // ---------------------------------------------------------------------------------------------
  // Code is well bracketed
  // ---------------------------------------------------------------------------------------------

  /** Code as user code can write it: actions, tracking paused around code, and calls of an effect with its function. */
  datatype Code = Act(act: Action) | Paused(body: seq<Code>) | Called(effect: Effect, body: seq<Code>)

  /** Calls and pauses are written as such and not as single actions. */
  predicate Plain(a: Action) {
    IsRead(a) || a.Set? || a.Delete? || a.Stop?
  }

  /** The function of a stopped effect runs as such; an effect that is running already is not called again. */
  function Perform(s: State, c: Code): State
    decreases c, 0
  {
    match c
    case Act(a) => if Plain(a) then Step(s, a) else s
    case Paused(body) => Step(PerformAll(Step(s, Pause), body), Reset)
    case Called(e, body) =>
      if Starts(s, e) then Step(PerformAll(Step(s, Enter(e)), body), Exit)
      else if e in s.stopped then PerformAll(s, body)
      else s
  }

  function PerformAll(s: State, cs: seq<Code>): State
    decreases cs, 1
  {
    if |cs| == 0 then s else PerformAll(Perform(s, cs[0]), cs[1..])
  }

  predicate SameContext(s: State, t: State) {
    t.stack == s.stack && t.current == s.current && t.tracking == s.tracking && t.trackStack == s.trackStack
  }

  /** Whatever code does, behind it the same effect is active, and tracking is on or off as before. */
  lemma {:induction false} CodeRestoresContext(s: State, c: Code)
    requires s.current == Top(s.stack)
    ensures SameContext(s, Perform(s, c))
    decreases c, 0
  {
    match c
    case Act(a) =>
    case Paused(body) => AllRestoresContext(Step(s, Pause), body);
    case Called(e, body) =>
      if Starts(s, e) {
        AllRestoresContext(Step(s, Enter(e)), body);
        ExitRestores(s, e, PerformAll(Step(s, Enter(e)), body));
      } else if e in s.stopped {
        AllRestoresContext(s, body);
      }
  }

  lemma {:induction false} ExitRestores(s: State, e: Effect, t: State)
    requires s.current == Top(s.stack) && Starts(s, e) && SameContext(Step(s, Enter(e)), t)
    ensures SameContext(s, Step(t, Exit))
  {
    Behind(s.stack, [e]);
    Behind(s.trackStack, [s.tracking]);
  }

  lemma {:induction false} AllRestoresContext(s: State, cs: seq<Code>)
    requires s.current == Top(s.stack)
    ensures SameContext(s, PerformAll(s, cs))
    decreases cs, 1
  {
    if |cs| > 0 {
      CodeRestoresContext(s, cs[0]);
      AllRestoresContext(Perform(s, cs[0]), cs[1..]);
    }
  }

  /** A reset without a pause turns tracking on. */
  lemma {:induction false} UnmatchedReset(s: State)
    requires |s.trackStack| == 0
    ensures Step(s, Reset).tracking && |Step(s, Reset).trackStack| == 0
  {
  }

  predicate OnlyReads(cs: seq<Code>) {
    forall c :: c in cs ==> c.Act? && IsRead(c.act)
  }

  /** Reads inside a pause make nobody depend on anything. */
  lemma {:induction false} PausedReadsAreFree(s: State, body: seq<Code>)
    requires OnlyReads(body) && s.current == Top(s.stack)
    ensures Perform(s, Paused(body)) == s
  {
    ReadsAreFree(Step(s, Pause), body);
    Behind(s.trackStack, [s.tracking]);
  }

  lemma {:induction false} ReadsAreFree(s: State, cs: seq<Code>)
    requires OnlyReads(cs) && !s.tracking
    ensures PerformAll(s, cs) == s
    decreases |cs|
  {
    if |cs| > 0 {
      ReadsAreFree(s, cs[1..]);
    }
  }

  // ---------------------------------------------------------------------------------------------
  // Objects keep what is written
  // ---------------------------------------------------------------------------------------------

  /** The keys are listed once each. */
  ghost predicate Listed(o: Obj) {
    Distinct(o.keys) && Elems(o.keys) == o.vals.Keys
  }

  lemma {:induction false} WithoutIsKeep(keys: seq<Key>, k: Key)
    ensures Without(keys, k) == Keep(keys, Elems(keys) - {k})
  {
    if |keys| > 0 {
      WithoutIsKeep(keys[1..], k);
      KeepAgree(keys[1..], Elems(keys) - {k}, Elems(keys[1..]) - {k});
    }
  }

  /** `o'` is `o` with the property set: all others as before and in their order, a new key last. */
  ghost predicate IsSet(o: Obj, o': Obj, k: Key, v: Val) {
    Read(o', k) == v && (forall x :: x != k ==> Read(o', x) == Read(o, x)) && WithKey(o.keys, o'.keys, k)
  }

  /** `o'` is `o` without the property: all others as before and in their order. */
  ghost predicate IsDeleted(o: Obj, o': Obj, k: Key) {
    && Read(o', k) == Undefined && o'.keys == Keep(o.keys, Elems(o.keys) - {k})
    && forall x :: x != k ==> Read(o', x) == Read(o, x)
  }

  lemma {:induction false} WrittenIsSet(o: Obj, k: Key, v: Val)
    requires Listed(o)
    ensures IsSet(o, Written(o, k, v), k, v)
  {
    KeysWritten(o, k, v);
    ValuesWritten(o, k, v);
  }

  lemma {:induction false} ValuesWritten(o: Obj, k: Key, v: Val)
    ensures Read(Written(o, k, v), k) == v && forall x :: x != k ==> Read(Written(o, k, v), x) == Read(o, x)
  {
  }

  /** The keys `after` are those of `before` in their order and `k`, which comes last if it is new. */
  ghost predicate WithKey(before: seq<Key>, after: seq<Key>, k: Key) {
    && Distinct(after) && Elems(after) == Elems(before) + {k} && Keep(after, Elems(before)) == before
    && (k !in before ==> 0 < |after| && after[|after| - 1] == k)
  }

  lemma {:induction false} KeysWritten(o: Obj, k: Key, v: Val)
    requires Listed(o)
    ensures WithKey(o.keys, Written(o, k, v).keys, k) && Listed(Written(o, k, v))
  {
    assert k in o.vals <==> k in Elems(o.keys);
    if k in o.vals {
      OldKeyStays(o.keys, k);
    } else {
      NewKeyLast(o.keys, k);
    }
    KeysOfUpdate(o.vals, k, v);
  }

  lemma {:induction false} KeysOfUpdate(vals: map<Key, Val>, k: Key, v: Val)
    ensures vals[k := v].Keys == vals.Keys + {k}
  {
  }

  lemma {:induction false} OldKeyStays(keys: seq<Key>, k: Key)
    requires Distinct(keys) && k in keys
    ensures WithKey(keys, keys, k)
  {
    KeepEverything(keys, Elems(keys));
  }

  lemma {:induction false} NewKeyLast(keys: seq<Key>, k: Key)
    requires Distinct(keys) && k !in keys
    ensures WithKey(keys, keys + [k], k)
  {
    KeepEverything(keys, Elems(keys));
    KeepConcat(keys, [k], Elems(keys));
  }

  lemma {:induction false} DeletedIsGone(o: Obj, k: Key)
    requires Listed(o)
    ensures IsDeleted(o, Deleted(o, k), k) && Listed(Deleted(o, k))
  {
    WithoutIsKeep(o.keys, k);
    KeepDistinct(o.keys, Elems(o.keys) - {k});
    assert k in o.vals <==> k in Elems(o.keys);
    if k !in o.vals {
      KeepEverything(o.keys, Elems(o.keys) - {k});
    } else {
      assert Elems(Keep(o.keys, Elems(o.keys) - {k})) == o.vals.Keys - {k};
    }
  }

  /** Setting and deleting do that to the object named, and nothing to any other. */
  lemma {:induction false} WritesAreKept(s: State, t: Target, k: Key, v: Val)
    requires Listed(ObjOf(s, t))
    ensures IsSet(ObjOf(s, t), ObjOf(Step(s, Set(t, k, v)), t), k, v)
    ensures IsDeleted(ObjOf(s, t), ObjOf(Step(s, Delete(t, k)), t), k)
    ensures Listed(ObjOf(Step(s, Set(t, k, v)), t)) && Listed(ObjOf(Step(s, Delete(t, k)), t))
    ensures forall t' :: t' != t ==>
              ObjOf(Step(s, Set(t, k, v)), t') == ObjOf(Step(s, Delete(t, k)), t') == ObjOf(s, t')
  {
    WrittenIsSet(ObjOf(s, t), k, v);
    KeysWritten(ObjOf(s, t), k, v);
    DeletedIsGone(ObjOf(s, t), k);
  }

  // ---------------------------------------------------------------------------------------------
  // Stopped effects
  // ---------------------------------------------------------------------------------------------

  /** Every dependency can be touched by some write. */
  lemma {:induction false} SomeWriteTouches(s: State, d: Dep) returns (a: Action)
    ensures d in Touched(s, a)
  {
    var o := ObjOf(s, d.target);
    match d
    case Prop(t, k) =>
      var v := if Read(o, k) == NaN then Undefined else NaN;
      if k in o.vals {
        HasChangedIsDifference(v, o.vals[k]);
      }
      a := Set(t, k, v);
    case Iterate(t) =>
      if o.vals.Keys == {} {
        a := Set(t, Builtin(0), NaN);
      } else {
        var k :| k in o.vals.Keys;
        a := Delete(t, k);
      }
  }

  lemma {:induction false} EndedStays(s: State, a: Action, e: Effect, deps: set<Dep>)
    requires GraphInv(s) && e in s.stopped && e !in s.stack
    ensures e in Step(s, a).stopped && e !in Step(s, a).stack && NextReads(s, a, e, deps) == deps
  {
    StoppedStays(s, a);
    StackChange(s, a);
    assert s.current != Some(e);
  }

  lemma {:induction false} StackChange(s: State, a: Action)
    ensures var t := Step(s, a).stack;
            || t == s.stack || (|s.stack| > 0 && t == s.stack[..|s.stack| - 1])
            || (a.Enter? && Starts(s, a.effect) && t == s.stack + [a.effect])
  {
  }

  /** A stopped effect that has ended never runs again as itself, so it reads nothing more. */
  lemma {:induction false} EndedReadsNoMore(init: State, run: Run, later: Run, e: Effect)
    requires IsInitial(init) && e in Exec(init, run).stopped && e !in Exec(init, run).stack
    ensures e in Exec(init, run + later).stopped && e !in Exec(init, run + later).stack
    ensures Reads(init, run + later, e) == Reads(init, run, e)
    decreases |later|
  {
    if |later| == 0 {
      WithNothing(run, later);
    } else {
      var first, a := later[..|later| - 1], later[|later| - 1];
      EndedReadsNoMore(init, run, first, e);
      RunKeepsInv(init, run + first);
      EndedStays(Exec(init, run + first), a, e, Reads(init, run, e));
      ExecOneMore(init, run + first, a, e);
      Assoc(run, first, [a]);
      OneMore(later, |later| - 1);
      Whole(later);
    }
  }

  /**
   * A stopped effect that has ended can still be triggered, now or later, if and only if it has made a tracked read
   * behind its stop: it was stopped while it was running, and went on to read.
   */
  lemma {:induction false} StoppedIsTriggeredIff(init: State, run: Run, e: Effect)
    requires IsInitial(init) && e in Exec(init, run).stopped && e !in Exec(init, run).stack
    ensures (exists later, a :: e in Triggered(Exec(init, run + later), a)) <==> Reads(init, run, e) != {}
  {
    var s := Exec(init, run);
    RunKeepsInv(init, run);
    DepsAreReads(init, run, e);
    if Reads(init, run, e) != {} {
      var d :| d in Reads(init, run, e);
      assert d in DepsOf(s, e) && e in SetOf(s, d);
      var a := SomeWriteTouches(s, d);
      TouchReaches(s, a, d, e);
      WithNothing(run, []);
      assert e in Triggered(Exec(init, run + []), a);
    } else {
      forall later, a
        ensures e !in Triggered(Exec(init, run + later), a)
      {
        EndedReadsNoMore(init, run, later, e);
        RunKeepsInv(init, run + later);
        DepsAreReads(init, run + later, e);
        NoDepsNoTrigger(Exec(init, run + later), a, e);
      }
    }
  }

  /** For example, an effect that is stopped while it runs and then reads one property. */
  lemma {:induction false} StoppedThenReads(init: State, e: Effect, t: Target, k: Key)
    requires IsInitial(init) && Ordinary(k)
    ensures var run := [] + [Enter(e)] + [Stop(e)] + [Get(t, k)] + [Exit];
            && e in Exec(init, run).stopped && e !in Exec(init, run).stack
            && Reads(init, run, e) == {Prop(t, k)}
  {
    var r1 := [] + [Enter(e)];
    var r2 := r1 + [Stop(e)];
    var r3 := r2 + [Get(t, k)];
    ExecOneMore(init, [], Enter(e), e);
    ExecOneMore(init, r1, Stop(e), e);
    ExecOneMore(init, r2, Get(t, k), e);
    ExecOneMore(init, r3, Exit, e);
    StoppedInside(init, e, Reads(init, r1, e));
    ReadsOn(Exec(init, r2), e, t, k);
  }

  lemma {:induction false} StoppedInside(init: State, e: Effect, deps: set<Dep>)
    requires IsInitial(init)
    ensures var s1 := Step(init, Enter(e));
            var s2 := Step(s1, Stop(e));
            s2.stack == [e] && Listens(s2, e) && e in s2.stopped && NextReads(s1, Stop(e), e, deps) == {}
  {
  }

  lemma {:induction false} ReadsOn(s: State, e: Effect, t: Target, k: Key)
    requires s.stack == [e] && Listens(s, e) && Ordinary(k)
    ensures var s1 := Step(s, Get(t, k));
            var s2 := Step(s1, Exit);
            && NextReads(s, Get(t, k), e, {}) == {Prop(t, k)}
            && NextReads(s1, Exit, e, {Prop(t, k)}) == {Prop(t, k)}
            && |s2.stack| == 0 && s2.stopped == s.stopped
  {
    GetChangesGraph(s, t, k);
    assert {} + {Prop(t, k)} == {Prop(t, k)};
  }

  lemma {:induction false} GetChangesGraph(s: State, t: Target, k: Key)
    ensures var s1 := Step(s, Get(t, k)); s1.stack == s.stack && s1.stopped == s.stopped
  {
  }

  lemma {:induction false} NoDepsNoTrigger(s: State, a: Action, e: Effect)
    requires GraphInv(s) && Elems(DepsOf(s, e)) == {}
    ensures e !in Triggered(s, a)
  {
    forall d
      ensures e !in SetOf(s, d)
    {
      assert d !in Elems(DepsOf(s, e));
    }
  }

  /** Setting a property to the value it has triggers nothing, also for NaN. */
  lemma {:induction false} UnchangedSetIsSilent(s: State, t: Target, k: Key, v: Val)
    requires k in ObjOf(s, t).vals && ObjOf(s, t).vals[k] == v
    ensures Triggered(s, Set(t, k, v)) == {}
  {
    HasChangedIsDifference(v, v);
  }

  /**
   * An effect that reads a property, and nothing else, and then ends is triggered by a later set of that property if
   * and only if the key is an ordinary one and the set adds the property or changes its value.
   */
  lemma {:induction false} ReadThenSetTriggersIff(s: State, e: Effect, t: Target, k: Key, v: Val)
    requires GraphInv(s) && Starts(s, e)
    ensures var r := Step(Step(Step(s, Enter(e)), Get(t, k)), Exit);
            e in Triggered(r, Set(t, k, v)) <==> Ordinary(k) && (k !in ObjOf(s, t).vals || ObjOf(s, t).vals[k] != v)
  {
    var s1 := Step(s, Enter(e));
    var s2 := Step(s1, Get(t, k));
    EnteredHasNone(s, e);
    GetAddsOne(s1, e, t, k);
    ExitLeavesTop(s, s2, e, t, k);
    OnlyReaderIff(Step(s2, Exit), e, t, k, v);
  }

  lemma {:induction false} EnteredHasNone(s: State, e: Effect)
    requires GraphInv(s) && Starts(s, e)
    ensures var s1 := Step(s, Enter(e));
            && Listens(s1, e) && s1.store == s.store && s1.stack == s.stack + [e]
            && forall d :: e !in SetOf(s1, d)
  {
    CleanupEdges(s, e);
    var c, s1 := Cleanup(s, e), Step(s, Enter(e));
    assert forall d :: SetOf(s1, d) == SetOf(c, d);
  }

  /** `e` depends on the property alone, or on nothing if the key is not an ordinary one. */
  ghost predicate ReadsOnly(s: State, e: Effect, t: Target, k: Key) {
    forall d :: e in SetOf(s, d) <==> d == Prop(t, k) && Ordinary(k)
  }

  lemma {:induction false} GetAddsOne(s: State, e: Effect, t: Target, k: Key)
    requires Listens(s, e) && forall d :: e !in SetOf(s, d)
    ensures var r := Step(s, Get(t, k));
            r.store == s.store && r.stack == s.stack && ReadsOnly(r, e, t, k)
  {
    var r, p := Step(s, Get(t, k)), Prop(t, k);
    TracksOrdinary(k);
    if Ordinary(k) {
      assert e !in SetOf(s, p);
      assert r.depSets == s.depSets[p := SetOf(s, p) + {e}];
      forall d
        ensures e in SetOf(r, d) <==> d == p
      {
        assert e !in SetOf(s, d);
      }
    }
  }

  lemma {:induction false} ExitLeavesTop(s: State, s2: State, e: Effect, t: Target, k: Key)
    requires GraphInv(s) && Starts(s, e) && s2.stack == s.stack + [e] && ReadsOnly(s2, e, t, k)
    ensures var r := Step(s2, Exit);
            r.current != Some(e) && r.store == s2.store && ReadsOnly(r, e, t, k)
  {
    assert s2.stack[..|s2.stack| - 1] == s.stack;
    assert forall d :: SetOf(Step(s2, Exit), d) == SetOf(s2, d);
  }

  lemma {:induction false} OnlyReaderIff(s: State, e: Effect, t: Target, k: Key, v: Val)
    requires s.current != Some(e) && ReadsOnly(s, e, t, k)
    ensures e in Triggered(s, Set(t, k, v)) <==>
            Ordinary(k) && (k !in ObjOf(s, t).vals || ObjOf(s, t).vals[k] != v)
  {
    var o, touched := ObjOf(s, t), Touched(s, Set(t, k, v));
    if k in o.vals {
      HasChangedIsDifference(v, o.vals[k]);
    }
    assert Prop(t, k) in touched <==> k !in o.vals || o.vals[k] != v;
    assert e in SetOf(s, Prop(t, k)) <==> Ordinary(k);
  }
}
