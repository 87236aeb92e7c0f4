/**
 * The writable stream as a state machine. JavaScript runs one thing at a time, so a state carries the call stack of
 * stream code and user code; user code (the `_write` hook, callbacks, event listeners) may call the stream again at
 * any point. Errors, destruction and `_writev` are not part of this machine.
 */
module Writable {
  import opened Seqs

  datatype Chunk = Chunk(id: nat, size: nat)

  /** Fixed by the stream's user: whether there is a `_final` hook, and the high water mark. */
  datatype Config = Config(hasFinal: bool, highWaterMark: nat)

  /** What the call stack holds: user code, or stream code waiting to go on. */
  datatype Frame =
    | InWrite                                // user: the `_write` hook
    | User                                   // user: a callback, a listener or the `_final` hook
    | OnwriteRest(sync: bool, skip: bool)    // `onwrite` behind the buffer check
    | AfterWrite(skip: bool)                 // `afterWrite`
    | Acknowledge                            // `afterWrite` behind the drain event
    | FinishMaybe
    | FinishCheck                            // `finishMaybe` behind the prefinish event
    | EndRest                                // `end` behind `uncork`
    | ClearBuffer                            // the loop that empties the buffer

  datatype Stack = Empty | On(top: Frame, below: Stack)

  /** Where the loop that empties the buffer stands: not running, at its head, or behind a call of `_write`. */
  datatype Drain = Off | Head | After

  /** Work put off with `nextTick`. */
  datatype Tick = TickAfterWrite(skip: bool) | TickFinal

  datatype State = State(
    length: int, writing: bool, writelen: int, corked: nat, sync: bool, needDrain: bool,
    // The request list: `bufferedRequest` is followed by `taken` requests that the running drain has handed over
    // already, then by the pending ones. `hasLast` tells whether `lastBufferedRequest` is set.
    taken: nat, pending: seq<Chunk>, hasLast: bool, count: int,
    pendingcb: int, ending: bool, finished: bool, prefinished: bool, finalCalled: bool, finalPending: bool,
    // `drain` other than `Off` is `bufferProcessing`.
    drain: Drain, stack: Stack, ticks: seq<Tick>,
    // History: writes accepted, writes handed to `_write`, completions, acknowledged callbacks, finish events; writes
    // that told their caller to wait, and drain events; prefinish events, and calls of `_final`.
    accepted: seq<Chunk>, delivered: seq<Chunk>, completed: nat, acked: nat, finishes: nat,
    refusals: nat, drains: nat, prefinishes: nat, finals: nat)

  datatype Action =
    | Write(chunk: Chunk) | Cork | Uncork | End | Complete | FinalDone | Return   // user code
    | Advance                                                                    // stream code goes on
    | RunTick                                                                    // the event loop, on an empty stack

  predicate Initial(s: State) {
    && s.length == s.writelen == s.count == s.pendingcb == 0 && s.corked == s.taken == 0
    && |s.pending| == |s.ticks| == |s.accepted| == |s.delivered| == 0 && s.completed == s.acked == s.finishes == 0
    && s.refusals == s.drains == s.prefinishes == s.finals == 0
    && s.sync && !s.writing && !s.needDrain && !s.hasLast
    && !s.ending && !s.finished && !s.prefinished && !s.finalCalled && !s.finalPending
    && s.stack.Empty? && s.drain == Off
  }

  // ---------------------------------------------------------------------------------------------
  // Steps
  // ---------------------------------------------------------------------------------------------

  function One(b: bool): nat {
    if b then 1 else 0
  }

  function Push(s: State, f: Frame): (r: State)
    ensures r.accepted == s.accepted && r.corked == s.corked
  {
    s.(stack := On(f, s.stack))
  }

  /** The top frame is the one that executes. */
  function Pop(s: State): (r: State)
    requires s.stack.On?
    ensures r.accepted == s.accepted && r.corked == s.corked
  {
    s.(stack := s.stack.below)
  }

  predicate UserTurn(s: State) {
    s.stack.On? ==> s.stack.top == InWrite || s.stack.top == User
  }

  /** Whether `bufferedRequest` is set. */
  predicate HasBuffered(s: State) {
    s.taken > 0 || |s.pending| > 0
  }

  /** `needFinish`. */
  predicate NeedFinish(s: State) {
    s.ending && s.length == 0 && !HasBuffered(s) && !s.finished && !s.writing
  }

  /** `doWrite`: hands a chunk to the `_write` hook. */
  function DoWrite(s: State, c: Chunk): (r: State)
    ensures r.accepted == s.accepted && r.corked == s.corked
  {
    Push(s.(writelen := c.size, writing := true, sync := true, delivered := s.delivered + [c]), InWrite)
  }

  function AddBuffered(s: State, c: Chunk): (r: State)
    ensures r.accepted == s.accepted && r.corked == s.corked
  {
    if s.hasLast then s.(pending := s.pending + [c], count := s.count + 1)
    else s.(taken := 0, pending := [c], hasLast := true, count := s.count + 1)
  }

  function Accept(cfg: Config, s: State, c: Chunk): State {
    s.(pendingcb := s.pendingcb + 1, length := s.length + c.size, accepted := s.accepted + [c],
       needDrain := s.needDrain || s.length + c.size >= cfg.highWaterMark,
       refusals := s.refusals + One(s.length + c.size >= cfg.highWaterMark))
  }

  /** `write`; a write after `end` is refused. */
  function DoAccept(cfg: Config, s: State, c: Chunk): (r: State)
    ensures r.accepted == if s.ending then s.accepted else s.accepted + [c]
  {
    if s.ending then s
    else if s.writing || s.corked > 0 then AddBuffered(Accept(cfg, s, c), c)
    else DoWrite(Accept(cfg, s, c), c)
  }

  /** What a completed write and `uncork` do to the buffer: start to empty it, if nothing stands against it. */
  function MaybeDrain(s: State): (r: State)
    ensures r.accepted == s.accepted && r.corked == s.corked
  {
    if !s.writing && s.corked == 0 && s.drain == Off && HasBuffered(s) then Push(s.(drain := Head), ClearBuffer)
    else s
  }

  function DoUncork(s: State): (r: State)
    ensures r.accepted == s.accepted
  {
    if s.corked == 0 then s else MaybeDrain(s.(corked := s.corked - 1))
  }

  /** `end` without a chunk: with one, it is a `write` first. */
  function DoEnd(s: State): (r: State)
    ensures r.accepted == s.accepted && r.corked == 0
  {
    var t := Push(s, EndRest);
    if t.corked > 0 then DoUncork(t.(corked := 1)) else t
  }

  /** `onwrite` up to the buffer check. */
  function Completed(s: State): State {
    s.(writing := false, length := s.length - s.writelen, writelen := 0, completed := s.completed + 1)
  }

  /** The user calls the callback that `_write` was given. */
  function DoComplete(s: State): (r: State)
    ensures r.accepted == s.accepted && r.corked == s.corked
  {
    if !s.writing then s
    else if NeedFinish(Completed(s)) then Push(Completed(s), OnwriteRest(s.sync, true))
    else MaybeDrain(Push(Completed(s), OnwriteRest(s.sync, false)))
  }

  function FinalOver(s: State): (r: State)
    ensures r.accepted == s.accepted && r.corked == s.corked
  {
    s.(pendingcb := s.pendingcb - 1, prefinished := true, prefinishes := s.prefinishes + 1, finalPending := false)
  }

  /** The user calls the callback that `_final` was given. */
  function DoFinalDone(s: State): (r: State)
    ensures r.accepted == s.accepted && r.corked == s.corked
  {
    if s.finalPending && TickFinal !in s.ticks then
      Push(Push(FinalOver(s), FinishMaybe), User)
    else s
  }

  /** User code returns to its caller; behind `_write` stands the end of `doWrite`. */
  function DoReturn(s: State): (r: State)
    ensures r.accepted == s.accepted && r.corked == s.corked && r.ending == s.ending
    ensures s.stack.On? ==> r.stack == s.stack.below
  {
    if s.stack.Empty? then s
    else if s.stack.top == InWrite then s.(stack := s.stack.below, sync := false)
    else s.(stack := s.stack.below)
  }

  function Taking(s: State): (r: State)
    requires |s.pending| > 0
    ensures r.accepted == s.accepted && r.corked == s.corked
  {
    s.(drain := After, taken := s.taken + 1, pending := s.pending[1..])
  }

  function NextRound(s: State): (r: State)
    ensures r.accepted == s.accepted && r.corked == s.corked
  {
    s.(count := s.count - 1, drain := Head)
  }

  /** The drain loop goes on; `s` is without its frame. */
  function AdvanceDrain(s: State): (r: State)
    ensures r.accepted == s.accepted && r.corked == s.corked
  {
    if s.drain == Head && |s.pending| > 0 then
      DoWrite(Push(Taking(s), ClearBuffer), s.pending[0])
    else if s.drain == After && !s.writing then Push(NextRound(s), ClearBuffer)
    else Drained(s)
  }

  /** The end of `clearBuffer`; behind a call of `_write` that has not completed, its request is counted off. */
  function Drained(s: State): (r: State)
    ensures r.accepted == s.accepted && r.corked == s.corked
  {
    s.(hasLast := s.hasLast && |s.pending| > 0, taken := 0, drain := Off,
       count := if s.drain == After then s.count - 1 else s.count)
  }

  function FinalDue(s: State): (r: State)
    ensures r.accepted == s.accepted && r.corked == s.corked
  {
    s.(pendingcb := s.pendingcb + 1, finalCalled := true, finalPending := true, ticks := s.ticks + [TickFinal])
  }

  function Prefinished(s: State): (r: State)
    ensures r.accepted == s.accepted && r.corked == s.corked
  {
    s.(prefinished := true, prefinishes := s.prefinishes + 1)
  }

  function AdvanceFinishMaybe(cfg: Config, s: State): (r: State)
    ensures r.accepted == s.accepted && r.corked == s.corked
  {
    if !NeedFinish(s) then s
    else if s.prefinished || s.finalCalled then Push(s, FinishCheck)
    else if cfg.hasFinal then Push(FinalDue(s), FinishCheck)
    else Push(Push(Prefinished(s), FinishCheck), User)
  }

  /** The drain event is emitted. */
  function Notified(s: State): (r: State)
    ensures r.accepted == s.accepted && r.corked == s.corked
  {
    s.(needDrain := false, drains := s.drains + 1)
  }

  function AdvanceAfterWrite(s: State, skip: bool): (r: State)
    ensures r.accepted == s.accepted && r.corked == s.corked
  {
    if !skip && s.length == 0 && s.needDrain then
      Push(Push(Notified(s), Acknowledge), User)
    else Push(s, Acknowledge)
  }

  function Acknowledged(s: State): State {
    s.(pendingcb := s.pendingcb - 1, acked := s.acked + 1)
  }

  /** The frame `f`, just popped, does its next piece of work. */
  function AdvanceFrame(cfg: Config, s: State, f: Frame): (r: State)
    ensures r.accepted == s.accepted && r.corked == s.corked
  {
    match f
    case OnwriteRest(sync, skip) =>
      if sync then s.(ticks := s.ticks + [TickAfterWrite(skip)]) else Push(s, AfterWrite(skip))
    case AfterWrite(skip) => AdvanceAfterWrite(s, skip)
    case Acknowledge => Push(Push(Acknowledged(s), FinishMaybe), User)
    case FinishMaybe => AdvanceFinishMaybe(cfg, s)
    case FinishCheck =>
      if s.pendingcb == 0 then Push(s.(finished := true, finishes := s.finishes + 1), User) else s
    case EndRest => if s.ending then s else Push(s.(ending := true), FinishMaybe)
    case ClearBuffer => AdvanceDrain(s)
    case InWrite => s
    case User => s
  }

  /** The frame that a deferred piece of work starts with. */
  function TickFrame(t: Tick): Frame {
    match t
    case TickAfterWrite(skip) => AfterWrite(skip)
    case TickFinal => User
  }

  function TickTaken(s: State): (r: State)
    requires |s.ticks| > 0
    ensures r.accepted == s.accepted && r.corked == s.corked
  {
    s.(ticks := s.ticks[1..], finals := s.finals + One(s.ticks[0] == TickFinal))
  }

  function DoTick(s: State): (r: State)
    ensures r.accepted == s.accepted && r.corked == s.corked
  {
    if s.stack.On? || |s.ticks| == 0 then s else Push(TickTaken(s), TickFrame(s.ticks[0]))
  }

  /** One action; an action out of turn does nothing. */
  function Step(cfg: Config, s: State, a: Action): (r: State)
    ensures r.accepted == s.accepted || (a.Write? && r.accepted == s.accepted + [a.chunk])
  {
    match a
    case Advance => if UserTurn(s) then s else AdvanceFrame(cfg, Pop(s), s.stack.top)
    case RunTick => DoTick(s)
    case Write(c) => if UserTurn(s) then DoAccept(cfg, s, c) else s
    case Cork => if UserTurn(s) then s.(corked := s.corked + 1) else s
    case Uncork => if UserTurn(s) then DoUncork(s) else s
    case End => if UserTurn(s) then DoEnd(s) else s
    case Complete => if UserTurn(s) then DoComplete(s) else s
    case FinalDone => if UserTurn(s) then DoFinalDone(s) else s
    case Return => if UserTurn(s) then DoReturn(s) else s
  }

  // ---------------------------------------------------------------------------------------------
  // Invariants
  // ---------------------------------------------------------------------------------------------

  function Bytes(cs: seq<Chunk>): nat {
    if |cs| == 0 then 0 else cs[0].size + Bytes(cs[1..])
  }

  lemma {:induction false} BytesAppend(cs: seq<Chunk>, c: Chunk)
    ensures Bytes(cs + [c]) == Bytes(cs) + c.size
  {
    if |cs| > 0 {
      assert (cs + [c])[1..] == cs[1..] + [c];
      BytesAppend(cs[1..], c);
    }
  }

  predicate IsOwed(f: Frame) {
    f.OnwriteRest? || f.AfterWrite? || f == Acknowledge
  }

  /** Completed writes whose callback these frames will still call. */
  function Owed(fs: Stack): nat {
    match fs
    case Empty => 0
    case On(f, below) => Owed(below) + if IsOwed(f) then 1 else 0
  }

  predicate Has(fs: Stack, f: Frame) {
    fs.On? && (fs.top == f || Has(fs.below, f))
  }

  function OwedTicks(ts: seq<Tick>): nat {
    if |ts| == 0 then 0 else (if ts[0].TickAfterWrite? then 1 else 0) + OwedTicks(ts[1..])
  }

  lemma {:induction false} OwedTicksPush(ts: seq<Tick>, t: Tick)
    ensures OwedTicks(ts + [t]) == OwedTicks(ts) + if t.TickAfterWrite? then 1 else 0
  {
    if |ts| > 0 {
      assert (ts + [t])[1..] == ts[1..] + [t];
      OwedTicksPush(ts[1..], t);
    }
  }

  /** The request list, the accepted and delivered writes and the byte count agree. */
  predicate Accounts(s: State) {
    && s.accepted == s.delivered + s.pending
    && s.length == s.writelen + Bytes(s.pending)
    && (if s.writing then |s.delivered| > 0 && s.writelen == s.delivered[|s.delivered| - 1].size else s.writelen == 0)
    && s.completed + (if s.writing then 1 else 0) == |s.delivered|
    && s.count == |s.pending| + (if s.drain == After then 1 else 0)
  }

  predicate AtMostOneDrain(fs: Stack) {
    fs.On? ==> (fs.top == ClearBuffer ==> !Has(fs.below, ClearBuffer)) && AtMostOneDrain(fs.below)
  }

  /** What stands on the drain loop is the `_write` call that it made. */
  predicate Based(fs: Stack) {
    fs.On? ==> (OnDrain(fs.below) ==> fs.top == InWrite) && Based(fs.below)
  }

  predicate OnDrain(fs: Stack) {
    fs.On? && fs.top == ClearBuffer
  }

  /** Where the drain loop stands. */
  predicate Draining(s: State) {
    && s.hasLast == HasBuffered(s)
    && AtMostOneDrain(s.stack) && Based(s.stack)
    && (s.drain == Off <==> !Has(s.stack, ClearBuffer))
    && (s.drain == Off ==> s.taken == 0)
    && (s.drain == Head ==> HasBuffered(s) && OnDrain(s.stack) && !s.writing)
    && (s.drain == After ==> s.taken > 0)
    && (s.drain == Off && !s.writing && s.corked == 0 ==> |s.pending| == 0)
  }

  /**
   * Every accepted write is acknowledged, or counted in `pendingcb`; every completed one is owed to its caller.
   * Between two halves of a step, `extra` writes are owed by nothing yet.
   */
  predicate Owes(s: State, extra: int) {
    && s.pendingcb == |s.accepted| - s.acked + One(s.finalPending)
    && s.completed == s.acked + Owed(s.stack) + OwedTicks(s.ticks) + extra
  }

  /** Inside the `_write` call that the drain loop made, and inside no other. */
  predicate FirstWrite(fs: Stack) {
    fs.On? && if fs.top == InWrite then OnDrain(fs.below) else fs.top != ClearBuffer && FirstWrite(fs.below)
  }

  /** A drain that has handed a request over leaves behind an acknowledgement put off, or a write in flight. */
  predicate DrainOwes(s: State) {
    s.drain != Off && s.taken > 0 ==>
      || OwedTicks(s.ticks) > 0
      || Has(s.stack, OnwriteRest(true, false))
      || (s.writing && (OnDrain(s.stack) || (s.sync && FirstWrite(s.stack))))
  }

  predicate Idle(s: State) {
    s.ending && !s.writing && |s.pending| == 0 && s.drain == Off
  }

  /** The frames above a started `finishMaybe` can no longer move the stream. */
  predicate ChecksOnTop(cfg: Config, fs: Stack) {
    fs.On? && Has(fs.below, FinishCheck) ==>
      (fs.top == User || fs.top == EndRest) && !cfg.hasFinal && ChecksOnTop(cfg, fs.below)
  }

  /** `due`: between two halves of a step, the stream may have to finish and nothing has looked yet. */
  predicate Finishing(cfg: Config, s: State, due: bool) {
    && s.finishes == One(s.finished)
    && (s.finished ==> Idle(s) && s.acked == |s.accepted| && !s.finalPending && !Has(s.stack, FinishCheck))
    && (s.finalPending ==> cfg.hasFinal && s.finalCalled && Idle(s))
    && (Has(s.stack, FinishCheck) ==> Idle(s))
    && ChecksOnTop(cfg, s.stack)
    && (NeedFinish(s) && s.pendingcb == 0 ==> due || Has(s.stack, FinishMaybe) || Has(s.stack, FinishCheck))
  }

  predicate Mid(cfg: Config, s: State, extra: int, due: bool) {
    Accounts(s) && Draining(s) && Owes(s, extra) && DrainOwes(s) && Finishing(cfg, s, due)
  }

  predicate Inv(cfg: Config, s: State) {
    Mid(cfg, s, 0, false)
  }

  /** A write that `_write` makes after it has completed, while a drain still holds older requests back. */
  predicate Overtakes(s: State, a: Action) {
    && a.Write? && UserTurn(s) && !s.ending
    && s.drain != Off && !s.writing && s.corked == 0 && |s.pending| > 0
  }

  // ---------------------------------------------------------------------------------------------
  // Every action keeps the invariant
  // ---------------------------------------------------------------------------------------------

  lemma {:induction false} InitialInv(cfg: Config, s: State)
    requires Initial(s)
    ensures Inv(cfg, s)
  {
  }

  /** Stream code or a callback leaves the stack. */
  lemma {:induction false} PopKeeps(cfg: Config, s: State, extra: int, due: bool)
    requires Mid(cfg, s, extra, due) && s.stack.On? && s.stack.top != InWrite && s.stack.top != ClearBuffer
    requires s.stack.top == OnwriteRest(true, false) ==> OwedTicks(s.ticks) > 0
    ensures var f := s.stack.top;
            && Mid(cfg, Pop(s), extra + One(IsOwed(f)), due || f == FinishMaybe || f == FinishCheck)
            && !OnDrain(s.stack.below)
            && (Has(s.stack.below, FinishCheck) ==> (f == User || f == EndRest) && !cfg.hasFinal)
  {
  }

  /** A frame goes on top. */
  lemma {:induction false} PushKeeps(cfg: Config, s: State, extra: int, due: bool, f: Frame)
    requires Mid(cfg, s, extra, due) && !OnDrain(s.stack)
    requires f != InWrite && f != FinishCheck && f != ClearBuffer
    requires Has(s.stack, FinishCheck) ==> (f == User || f == EndRest) && !cfg.hasFinal
    ensures Mid(cfg, Push(s, f), extra - One(IsOwed(f)), due && f != FinishMaybe)
  {
  }

  /** What holds when user code is about to call the stream. */
  lemma {:induction false} UserMayPush(cfg: Config, s: State)
    requires Inv(cfg, s) && UserTurn(s)
    ensures !OnDrain(s.stack)
    ensures Has(s.stack, FinishCheck) ==> !cfg.hasFinal
  {
  }

  lemma {:induction false} DirectWriteKeepsInv(cfg: Config, s: State, c: Chunk)
    requires Inv(cfg, s) && UserTurn(s) && !Overtakes(s, Write(c)) && !s.ending && !s.writing && s.corked == 0
    ensures Inv(cfg, DoWrite(Accept(cfg, s, c), c))
  {
    assert |s.pending| == 0;
  }

  lemma {:induction false} BufferedWriteKeepsInv(cfg: Config, s: State, c: Chunk)
    requires Inv(cfg, s) && UserTurn(s) && !s.ending && (s.writing || s.corked > 0)
    ensures Inv(cfg, AddBuffered(Accept(cfg, s, c), c))
  {
    BufferedAccounts(cfg, s, c);
    BufferedDrains(cfg, s, c);
  }

  lemma {:induction false} BufferedAccounts(cfg: Config, s: State, c: Chunk)
    requires Accounts(s) && (!s.hasLast ==> |s.pending| == 0)
    ensures Accounts(AddBuffered(Accept(cfg, s, c), c))
  {
    BytesAppend(s.pending, c);
    Assoc(s.delivered, s.pending, [c]);
    if |s.pending| == 0 {
      WithNothing([c], s.pending);
    }
  }

  lemma {:induction false} BufferedDrains(cfg: Config, s: State, c: Chunk)
    requires Inv(cfg, s) && !s.ending && (s.writing || s.corked > 0)
    ensures var t := AddBuffered(Accept(cfg, s, c), c);
            Draining(t) && Owes(t, 0) && DrainOwes(t) && Finishing(cfg, t, false)
  {
  }

  lemma {:induction false} WriteKeepsInv(cfg: Config, s: State, c: Chunk)
    requires Inv(cfg, s) && UserTurn(s) && !Overtakes(s, Write(c))
    ensures Inv(cfg, DoAccept(cfg, s, c))
  {
    if !s.ending {
      if s.writing || s.corked > 0 {
        BufferedWriteKeepsInv(cfg, s, c);
      } else {
        DirectWriteKeepsInv(cfg, s, c);
      }
    }
  }

  lemma {:induction false} CorkKeepsInv(cfg: Config, s: State)
    requires Inv(cfg, s)
    ensures Inv(cfg, s.(corked := s.corked + 1))
  {
  }

  lemma {:induction false} DrainStarts(cfg: Config, s: State)
    requires Mid(cfg, s, 0, false) && !s.writing && s.drain == Off && HasBuffered(s)
    ensures Mid(cfg, Push(s.(drain := Head, corked := 0), ClearBuffer), 0, false)
  {
  }

  /** `s` is checked as if corked: without that, a buffer that nothing drains is what `MaybeDrain` is there for. */
  lemma {:induction false} MaybeDrainKeepsInv(cfg: Config, s: State)
    requires Inv(cfg, s.(corked := 1))
    ensures Inv(cfg, MaybeDrain(s))
  {
    if !s.writing && s.corked == 0 && s.drain == Off && HasBuffered(s) {
      DrainStarts(cfg, s.(corked := 1));
    }
  }

  lemma {:induction false} UncorkKeepsInv(cfg: Config, s: State)
    requires Inv(cfg, s)
    ensures Inv(cfg, DoUncork(s))
  {
    if s.corked > 0 {
      MaybeDrainKeepsInv(cfg, s.(corked := s.corked - 1));
    }
  }

  lemma {:induction false} EndKeepsInv(cfg: Config, s: State)
    requires Inv(cfg, s) && UserTurn(s)
    ensures Inv(cfg, DoEnd(s))
  {
    UserMayPush(cfg, s);
    PushKeeps(cfg, s, 0, false, EndRest);
    if s.corked > 0 {
      UncorkKeepsInv(cfg, Push(s, EndRest).(corked := 1));
    }
  }

  lemma {:induction false} CompletedKeeps(cfg: Config, s: State)
    requires Inv(cfg, s) && s.writing && UserTurn(s)
    ensures Mid(cfg, Push(Completed(s).(corked := 1), OnwriteRest(s.sync, NeedFinish(Completed(s)))), 0, false)
  {
  }

  lemma {:induction false} CompleteKeepsInv(cfg: Config, s: State)
    requires Inv(cfg, s) && UserTurn(s)
    ensures Inv(cfg, DoComplete(s))
  {
    if s.writing {
      UserMayPush(cfg, s);
      CompletedKeeps(cfg, s);
      MaybeDrainKeepsInv(cfg, Push(Completed(s), OnwriteRest(s.sync, NeedFinish(Completed(s)))));
    }
  }

  lemma {:induction false} FinalDoneKeepsInv(cfg: Config, s: State)
    requires Inv(cfg, s) && UserTurn(s)
    ensures Inv(cfg, DoFinalDone(s))
  {
    if s.finalPending {
      UserMayPush(cfg, s);
      var t := FinalOver(s);
      assert Mid(cfg, t, 0, true);
      PushBoth(cfg, t);
    }
  }

  lemma {:induction false} WriteHookReturns(cfg: Config, s: State)
    requires Inv(cfg, s) && s.stack.On? && s.stack.top == InWrite
    ensures Inv(cfg, DoReturn(s))
  {
  }

  lemma {:induction false} CallbackReturns(cfg: Config, s: State)
    requires Inv(cfg, s) && s.stack.On? && s.stack.top == User
    ensures Inv(cfg, DoReturn(s))
  {
    PopKeeps(cfg, s, 0, false);
    assert DoReturn(s) == Pop(s);
  }

  lemma {:induction false} ReturnKeepsInv(cfg: Config, s: State)
    requires Inv(cfg, s) && UserTurn(s)
    ensures Inv(cfg, DoReturn(s))
  {
    if s.stack.On? {
      if s.stack.top == InWrite {
        WriteHookReturns(cfg, s);
      } else {
        CallbackReturns(cfg, s);
      }
    }
  }

  lemma {:induction false} TickLeaves(cfg: Config, s: State)
    requires Inv(cfg, s) && s.stack.Empty? && |s.ticks| > 0
    ensures Mid(cfg, TickTaken(s), One(s.ticks[0].TickAfterWrite?), false)
  {
  }

  lemma {:induction false} TickKeepsInv(cfg: Config, s: State)
    requires Inv(cfg, s)
    ensures Inv(cfg, DoTick(s))
  {
    if s.stack.Empty? && |s.ticks| > 0 {
      TickLeaves(cfg, s);
      PushKeeps(cfg, TickTaken(s), One(s.ticks[0].TickAfterWrite?), false, TickFrame(s.ticks[0]));
    }
  }

  lemma {:induction false} DrainDelivers(cfg: Config, s: State)
    requires Inv(cfg, s) && OnDrain(s.stack) && s.drain == Head && |s.pending| > 0
    ensures Inv(cfg, AdvanceDrain(Pop(s)))
  {
    var c := s.pending[0];
    assert s.delivered + s.pending == (s.delivered + [c]) + s.pending[1..];
  }

  lemma {:induction false} HasOwed(fs: Stack, f: Frame)
    requires Has(fs, f) && IsOwed(f)
    ensures Owed(fs) > 0
  {
    if fs.top != f {
      HasOwed(fs.below, f);
    }
  }

  lemma {:induction false} DrainLeavesOwed(cfg: Config, s: State)
    requires Inv(cfg, s) && s.drain != Off && s.taken > 0 && !s.writing
    ensures s.pendingcb > 0
  {
    if Has(s.stack, OnwriteRest(true, false)) {
      HasOwed(s.stack, OnwriteRest(true, false));
    }
  }

  lemma {:induction false} DrainEnds(cfg: Config, s: State)
    requires Inv(cfg, s) && OnDrain(s.stack) && (s.drain == Head ==> |s.pending| == 0)
    ensures Inv(cfg, AdvanceDrain(Pop(s)))
  {
    if s.drain == After && !s.writing {
      DrainGoesOn(cfg, s);
    } else {
      if !s.writing {
        DrainLeavesOwed(cfg, s);
      }
      DrainStops(cfg, s);
    }
  }

  lemma {:induction false} DrainGoesOn(cfg: Config, s: State)
    requires Inv(cfg, s) && OnDrain(s.stack) && s.drain == After && !s.writing
    ensures Inv(cfg, Push(Pop(s).(count := s.count - 1, drain := Head), ClearBuffer))
  {
  }

  lemma {:induction false} DrainStops(cfg: Config, s: State)
    requires Inv(cfg, s) && OnDrain(s.stack) && (if s.writing then s.drain == After else s.pendingcb > 0)
    requires s.drain == Head ==> |s.pending| == 0
    requires s.drain == After ==> s.writing
    ensures Inv(cfg, Drained(Pop(s)))
  {
  }

  lemma {:induction false} TickArrives(cfg: Config, s: State, t: Tick)
    requires Inv(cfg, s)
    ensures Mid(cfg, s.(ticks := s.ticks + [t]), 0 - One(t.TickAfterWrite?), false)
    ensures t.TickAfterWrite? ==> OwedTicks(s.ticks + [t]) > 0
  {
    OwedTicksPush(s.ticks, t);
  }

  lemma {:induction false} TickFollows(cfg: Config, s: State)
    requires Inv(cfg, s) && s.stack.On? && s.stack.top.OnwriteRest?
    ensures Inv(cfg, Pop(s).(ticks := s.ticks + [TickAfterWrite(s.stack.top.skip)]))
  {
    TickArrives(cfg, s, TickAfterWrite(s.stack.top.skip));
    PopKeeps(cfg, s.(ticks := s.ticks + [TickAfterWrite(s.stack.top.skip)]), -1, false);
  }

  lemma {:induction false} AfterWriteFollows(cfg: Config, s: State)
    requires Inv(cfg, s) && s.stack.On? && s.stack.top.OnwriteRest? && !s.stack.top.sync
    ensures Inv(cfg, Push(Pop(s), AfterWrite(s.stack.top.skip)))
  {
    PopKeeps(cfg, s, 0, false);
    PushKeeps(cfg, Pop(s), 1, false, AfterWrite(s.stack.top.skip));
  }

  lemma {:induction false} OnwriteRestKeepsInv(cfg: Config, s: State)
    requires Inv(cfg, s) && s.stack.On? && s.stack.top.OnwriteRest?
    ensures Inv(cfg, AdvanceFrame(cfg, Pop(s), s.stack.top))
  {
    if s.stack.top.sync {
      TickFollows(cfg, s);
    } else {
      AfterWriteFollows(cfg, s);
    }
  }

  lemma {:induction false} AfterWriteKeeps(cfg: Config, s: State, skip: bool)
    requires Mid(cfg, s, 1, false) && !OnDrain(s.stack) && !Has(s.stack, FinishCheck)
    ensures Inv(cfg, AdvanceAfterWrite(s, skip))
  {
    PushKeeps(cfg, s, 1, false, Acknowledge);
    NotifiedKeeps(cfg, s);
    PushKeeps(cfg, Push(Notified(s), Acknowledge), 0, false, User);
  }

  lemma {:induction false} NotifiedKeeps(cfg: Config, s: State)
    requires Mid(cfg, s, 1, false) && !OnDrain(s.stack) && !Has(s.stack, FinishCheck)
    ensures Mid(cfg, Push(Notified(s), Acknowledge), 0, false)
  {
    PushKeeps(cfg, s, 1, false, Acknowledge);
  }

  lemma {:induction false} AfterWriteKeepsInv(cfg: Config, s: State)
    requires Inv(cfg, s) && s.stack.On? && s.stack.top.AfterWrite?
    ensures Inv(cfg, AdvanceFrame(cfg, Pop(s), s.stack.top))
  {
    PopKeeps(cfg, s, 0, false);
    AfterWriteKeeps(cfg, Pop(s), s.stack.top.skip);
  }

  lemma {:induction false} AckedKeeps(cfg: Config, s: State)
    requires Mid(cfg, s, 1, false) && !OnDrain(s.stack) && !Has(s.stack, FinishCheck)
    ensures Mid(cfg, Acknowledged(s), 0, true)
  {
  }

  /** `finishMaybe` is to follow, and user code runs before it. */
  lemma {:induction false} PushBoth(cfg: Config, s: State)
    requires Mid(cfg, s, 0, true) && !OnDrain(s.stack) && !Has(s.stack, FinishCheck)
    ensures Inv(cfg, Push(Push(s, FinishMaybe), User))
  {
    PushKeeps(cfg, s, 0, true, FinishMaybe);
    PushKeeps(cfg, Push(s, FinishMaybe), 0, false, User);
  }

  lemma {:induction false} AckedPushes(cfg: Config, s: State)
    requires Mid(cfg, s, 1, false) && !OnDrain(s.stack) && !Has(s.stack, FinishCheck)
    ensures Inv(cfg, Push(Push(Acknowledged(s), FinishMaybe), User))
  {
    AckedKeeps(cfg, s);
    PushBoth(cfg, Acknowledged(s));
  }

  lemma {:induction false} AcknowledgeKeepsInv(cfg: Config, s: State)
    requires Inv(cfg, s) && s.stack.On? && s.stack.top == Acknowledge
    ensures Inv(cfg, AdvanceFrame(cfg, Pop(s), s.stack.top))
  {
    PopKeeps(cfg, s, 0, false);
    AckedPushes(cfg, Pop(s));
  }

  lemma {:induction false} FinishMaybeKeepsInv(cfg: Config, s: State)
    requires Inv(cfg, s) && s.stack.On? && s.stack.top == FinishMaybe
    ensures Inv(cfg, AdvanceFrame(cfg, Pop(s), s.stack.top))
  {
    PopKeeps(cfg, s, 0, false);
    if NeedFinish(Pop(s)) {
      CheckKeeps(cfg, Pop(s));
    }
  }

  lemma {:induction false} CheckKeeps(cfg: Config, s: State)
    requires Mid(cfg, s, 0, true) && NeedFinish(s) && !Has(s.stack, FinishCheck)
    ensures Inv(cfg, AdvanceFinishMaybe(cfg, s))
  {
    OwedTicksPush(s.ticks, TickFinal);
  }

  lemma {:induction false} FinishCheckKeepsInv(cfg: Config, s: State)
    requires Inv(cfg, s) && s.stack.On? && s.stack.top == FinishCheck
    ensures Inv(cfg, AdvanceFrame(cfg, Pop(s), s.stack.top))
  {
    PopKeeps(cfg, s, 0, false);
    if s.pendingcb == 0 {
      var t := Pop(s).(finished := true, finishes := s.finishes + 1);
      assert Mid(cfg, t, 0, false);
      PushKeeps(cfg, t, 0, false, User);
    }
  }

  lemma {:induction false} EndingKeeps(cfg: Config, s: State)
    requires Inv(cfg, s) && !OnDrain(s.stack) && !s.ending
    ensures Inv(cfg, Push(s.(ending := true), FinishMaybe))
  {
    assert Mid(cfg, s.(ending := true), 0, true);
    PushKeeps(cfg, s.(ending := true), 0, true, FinishMaybe);
  }

  lemma {:induction false} EndRestKeepsInv(cfg: Config, s: State)
    requires Inv(cfg, s) && s.stack.On? && s.stack.top == EndRest
    ensures Inv(cfg, AdvanceFrame(cfg, Pop(s), s.stack.top))
  {
    PopKeeps(cfg, s, 0, false);
    if !s.ending {
      EndingKeeps(cfg, Pop(s));
    }
  }

  lemma {:induction false} AdvanceKeepsInv(cfg: Config, s: State)
    requires Inv(cfg, s) && !UserTurn(s)
    ensures Inv(cfg, AdvanceFrame(cfg, Pop(s), s.stack.top))
  {
    match s.stack.top
    case ClearBuffer =>
      if s.drain == Head && |s.pending| > 0 { DrainDelivers(cfg, s); } else { DrainEnds(cfg, s); }
    case OnwriteRest(_, _) => OnwriteRestKeepsInv(cfg, s);
    case AfterWrite(_) => AfterWriteKeepsInv(cfg, s);
    case Acknowledge => AcknowledgeKeepsInv(cfg, s);
    case FinishMaybe => FinishMaybeKeepsInv(cfg, s);
    case FinishCheck => FinishCheckKeepsInv(cfg, s);
    case EndRest => EndRestKeepsInv(cfg, s);
  }

  /** Every action but an overtaking write keeps the invariant. */
  lemma {:induction false} StepKeepsInv(cfg: Config, s: State, a: Action)
    requires Inv(cfg, s) && !Overtakes(s, a)
    ensures Inv(cfg, Step(cfg, s, a))
  {
    if a.Advance? {
      if !UserTurn(s) {
        AdvanceKeepsInv(cfg, s);
      }
    } else if a.RunTick? {
      TickKeepsInv(cfg, s);
    } else if UserTurn(s) {
      UserKeepsInv(cfg, s, a);
    }
  }

  lemma {:induction false} UserKeepsInv(cfg: Config, s: State, a: Action)
    requires Inv(cfg, s) && UserTurn(s) && !Overtakes(s, a) && !a.Advance? && !a.RunTick?
    ensures Inv(cfg, Step(cfg, s, a))
  {
    if a.Complete? || a.FinalDone? || a.Return? {
      HookKeepsInv(cfg, s, a);
    } else {
      CallKeepsInv(cfg, s, a);
    }
  }

  /** User code calls the stream. */
  lemma {:induction false} CallKeepsInv(cfg: Config, s: State, a: Action)
    requires Inv(cfg, s) && UserTurn(s) && !Overtakes(s, a) && (a.Write? || a.Cork? || a.Uncork? || a.End?)
    ensures Inv(cfg, Step(cfg, s, a))
  {
    match a
    case Write(c) => WriteKeepsInv(cfg, s, c);
    case Cork => CorkKeepsInv(cfg, s);
    case Uncork => UncorkKeepsInv(cfg, s);
    case End => EndKeepsInv(cfg, s);
  }

  /** A hook completes or user code returns. */
  lemma {:induction false} HookKeepsInv(cfg: Config, s: State, a: Action)
    requires Inv(cfg, s) && UserTurn(s) && (a.Complete? || a.FinalDone? || a.Return?)
    ensures Inv(cfg, Step(cfg, s, a))
  {
    match a
    case Complete => CompleteKeepsInv(cfg, s);
    case FinalDone => FinalDoneKeepsInv(cfg, s);
    case Return => ReturnKeepsInv(cfg, s);
  }

  // ---------------------------------------------------------------------------------------------
  // Whole runs
  // ---------------------------------------------------------------------------------------------

  function Run(cfg: Config, s: State, acts: seq<Action>): State
    decreases |acts|
  {
    if |acts| == 0 then s else Run(cfg, Step(cfg, s, acts[0]), acts[1..])
  }

  predicate NeverOvertakes(cfg: Config, s: State, acts: seq<Action>)
    decreases |acts|
  {
    |acts| > 0 ==> !Overtakes(s, acts[0]) && NeverOvertakes(cfg, Step(cfg, s, acts[0]), acts[1..])
  }

  lemma {:induction false} RunKeepsInv(cfg: Config, s: State, acts: seq<Action>)
    requires Inv(cfg, s) && NeverOvertakes(cfg, s, acts)
    ensures Inv(cfg, Run(cfg, s, acts))
    decreases |acts|
  {
    if |acts| > 0 {
      StepKeepsInv(cfg, s, acts[0]);
      RunKeepsInv(cfg, Step(cfg, s, acts[0]), acts[1..]);
    }
  }

  /**
   * Chunks reach `_write` in the order of the calls of `write`, each after the one before it has completed; `length`
   * counts the bytes of the writes not completed, and an idle stream holds nothing back.
   */
  lemma {:induction false} RunInOrder(cfg: Config, s: State, acts: seq<Action>)
    requires Initial(s) && NeverOvertakes(cfg, s, acts)
    ensures var t := Run(cfg, s, acts);
            && t.accepted == t.delivered + t.pending
            && |t.delivered| == t.completed + One(t.writing)
            && t.length == Bytes(t.accepted[t.completed..])
            && (t.drain == Off ==> t.count == |t.pending|)
            && (t.drain == Off && !t.writing && t.corked == 0 ==> t.delivered == t.accepted)
  {
    InitialInv(cfg, s);
    RunKeepsInv(cfg, s, acts);
    var t := Run(cfg, s, acts);
    if t.writing {
      assert t.accepted[t.completed..] == [t.delivered[t.completed]] + t.pending;
    } else {
      assert t.accepted[t.completed..] == t.pending;
    }
  }

  /**
   * A write tells its caller to wait if and only if with it the bytes written and not completed reach the mark; and the
   * drain event is then due, or was before.
   */
  lemma {:induction false} AskedToWaitIff(cfg: Config, s: State, acts: seq<Action>, c: Chunk)
    requires Initial(s) && NeverOvertakes(cfg, s, acts)
    requires UserTurn(Run(cfg, s, acts)) && !Run(cfg, s, acts).ending
    ensures Run(cfg, s, acts).completed <= |Run(cfg, s, acts).accepted|
    ensures var t := Run(cfg, s, acts);
            var t', full := Step(cfg, t, Write(c)), Bytes(t.accepted[t.completed..]) + c.size >= cfg.highWaterMark;
            && t'.refusals == (if full then t.refusals + 1 else t.refusals)
            && (t'.needDrain <==> t.needDrain || full)
  {
    RunInOrder(cfg, s, acts);
    RunFinishesOnce(cfg, s, acts);
    WriteAsks(cfg, Run(cfg, s, acts), c);
  }

  lemma {:induction false} WriteAsks(cfg: Config, s: State, c: Chunk)
    requires UserTurn(s) && !s.ending
    ensures var t, full := Step(cfg, s, Write(c)), s.length + c.size >= cfg.highWaterMark;
            t.refusals == (if full then s.refusals + 1 else s.refusals) && (t.needDrain <==> s.needDrain || full)
  {
    var t := Accept(cfg, s, c);
    BufferedAsks(t, c);
    assert Step(cfg, s, Write(c)) == DoAccept(cfg, s, c);
  }

  lemma {:induction false} BufferedAsks(s: State, c: Chunk)
    ensures AddBuffered(s, c).refusals == s.refusals && AddBuffered(s, c).needDrain == s.needDrain
    ensures DoWrite(s, c).refusals == s.refusals && DoWrite(s, c).needDrain == s.needDrain
  {
  }

  /** `finish` comes at most once, and only when `end` was called and every accepted write is acknowledged. */
  lemma {:induction false} RunFinishesOnce(cfg: Config, s: State, acts: seq<Action>)
    requires Initial(s) && NeverOvertakes(cfg, s, acts)
    ensures var t := Run(cfg, s, acts);
            && t.finishes <= 1 && t.acked <= t.completed <= |t.accepted|
            && (t.finishes == 1 ==> t.ending && t.delivered == t.accepted && t.acked == |t.accepted| && !t.finalPending)
  {
    InitialInv(cfg, s);
    RunKeepsInv(cfg, s, acts);
  }

  /** Nothing is left to run or to complete. */
  predicate Quiet(s: State) {
    s.stack.Empty? && |s.ticks| == 0 && !s.writing && !s.finalPending
  }

  /** An ended stream with nothing left to run, complete or uncork has finished. */
  lemma {:induction false} QuietStreamHasFinished(cfg: Config, s: State, acts: seq<Action>)
    requires Initial(s) && NeverOvertakes(cfg, s, acts)
    requires var t := Run(cfg, s, acts); Quiet(t) && t.ending && t.corked == 0
    ensures Run(cfg, s, acts).finishes == 1
  {
    InitialInv(cfg, s);
    RunKeepsInv(cfg, s, acts);
    QuietHasFinished(cfg, Run(cfg, s, acts));
  }

  lemma {:induction false} QuietHasFinished(cfg: Config, s: State)
    requires Inv(cfg, s) && Quiet(s) && s.ending && s.corked == 0
    ensures s.finishes == 1
  {
  }

  predicate AlwaysInOrder(cfg: Config, s: State, acts: seq<Action>)
    decreases |acts|
  {
    s.delivered <= s.accepted && (|acts| > 0 ==> AlwaysInOrder(cfg, Step(cfg, s, acts[0]), acts[1..]))
  }

  /** Every chunk written is another one than those before. */
  predicate FreshWrites(seen: set<Chunk>, acts: seq<Action>)
    decreases |acts|
  {
    |acts| > 0 ==>
      match acts[0]
      case Write(c) => c !in seen && FreshWrites(seen + {c}, acts[1..])
      case _ => FreshWrites(seen, acts[1..])
  }

  function SeenAfter(seen: set<Chunk>, a: Action): set<Chunk> {
    if a.Write? then seen + {a.chunk} else seen
  }

  /** An overtaking write is delivered before requests that were accepted earlier. */
  lemma {:induction false} OvertakingBreaksOrder(cfg: Config, s: State, a: Action)
    requires Accounts(s) && Overtakes(s, a) && a.chunk !in s.accepted
    ensures !(Step(cfg, s, a).delivered <= Step(cfg, s, a).accepted)
  {
    var t := Step(cfg, s, a);
    var n := |s.delivered|;
    assert t.delivered[n] == a.chunk;
    assert t.accepted[n] == s.accepted[n];
  }

  /** Deliveries follow the order of the writes throughout a run exactly when no write overtakes a drain. */
  lemma {:induction false} InOrderIff(cfg: Config, s: State, acts: seq<Action>, seen: set<Chunk>)
    requires Inv(cfg, s) && FreshWrites(seen, acts) && forall c :: c in s.accepted ==> c in seen
    ensures AlwaysInOrder(cfg, s, acts) <==> NeverOvertakes(cfg, s, acts)
    decreases |acts|
  {
    if |acts| > 0 {
      var a, t := acts[0], Step(cfg, s, acts[0]);
      if Overtakes(s, a) {
        OvertakingBreaksOrder(cfg, s, a);
      } else {
        StepKeepsInv(cfg, s, a);
        InOrderIff(cfg, t, acts[1..], SeenAfter(seen, a));
      }
    }
  }

  lemma {:induction false} RunInOrderIff(cfg: Config, s: State, acts: seq<Action>)
    requires Initial(s) && FreshWrites({}, acts)
    ensures AlwaysInOrder(cfg, s, acts) <==> NeverOvertakes(cfg, s, acts)
  {
    InitialInv(cfg, s);
    InOrderIff(cfg, s, acts, {});
  }

  lemma {:induction false} OvertakesInHook(cfg: Config, s: State, c: Chunk)
    requires s.stack.On? && s.stack.top == InWrite && s.drain == After && s.writing && s.sync
    requires !s.ending && s.corked == 0 && |s.pending| > 0
    ensures Overtakes(Step(cfg, Step(cfg, s, Complete), Advance), Write(c))
  {
    assert Step(cfg, s, Complete) == Push(Completed(s), OnwriteRest(true, false));
  }

  /** Such a run exists: two corked writes, then `_write` completes the first at once and writes a third. */
  lemma {:induction false} OvertakingRun(cfg: Config, s: State, a: Chunk, b: Chunk, c: Chunk)
    requires Initial(s)
    ensures var corked := Step(cfg, Step(cfg, Step(cfg, s, Cork), Write(a)), Write(b));
            var hook := Step(cfg, Step(cfg, corked, Uncork), Advance);
            Overtakes(Step(cfg, Step(cfg, hook, Complete), Advance), Write(c))
  {
    var corked := Step(cfg, Step(cfg, Step(cfg, s, Cork), Write(a)), Write(b));
    assert corked.pending == [a, b] && UserTurn(corked);
    OvertakesInHook(cfg, Step(cfg, Step(cfg, corked, Uncork), Advance), c);
  }

  // ---------------------------------------------------------------------------------------------
  // The drain event
  // ---------------------------------------------------------------------------------------------

  /** Stream code that will look whether a drain event is due. */
  predicate WillLook(f: Frame) {
    f == AfterWrite(false) || (f.OnwriteRest? && !f.skip)
  }

  predicate Looks(fs: Stack) {
    fs.On? && (WillLook(fs.top) || Looks(fs.below))
  }

  /** A caller that waits for the drain event has a write to wait for, or the event is about to come. */
  predicate Wakes(s: State) {
    s.needDrain && !s.ending ==>
      s.completed < |s.accepted| || Looks(s.stack) || TickAfterWrite(false) in s.ticks
  }

  predicate DrainsDue(s: State) {
    s.drains + One(s.needDrain) <= s.refusals
  }

  predicate Awake(s: State) {
    Wakes(s) && DrainsDue(s)
  }

  lemma {:induction false} PushAwake(s: State, f: Frame)
    requires DrainsDue(s) && (WillLook(f) || Wakes(s))
    ensures Awake(Push(s, f))
  {
  }

  lemma {:induction false} PopAwake(s: State)
    requires Awake(s) && s.stack.On? && (!WillLook(s.stack.top) || s.completed < |s.accepted|)
    ensures Awake(Pop(s))
  {
  }

  lemma {:induction false} MaybeDrainAwake(s: State)
    requires Awake(s)
    ensures Awake(MaybeDrain(s))
  {
    PushAwake(s.(drain := Head), ClearBuffer);
  }

  lemma {:induction false} UncorkAwake(s: State)
    requires Awake(s)
    ensures Awake(DoUncork(s))
  {
    if s.corked > 0 {
      MaybeDrainAwake(s.(corked := s.corked - 1));
    }
  }

  lemma {:induction false} EndAwake(s: State)
    requires Awake(s)
    ensures Awake(DoEnd(s))
  {
    PushAwake(s, EndRest);
    UncorkAwake(Push(s, EndRest).(corked := 1));
  }

  lemma {:induction false} DoWriteAwake(s: State, c: Chunk)
    requires Awake(s)
    ensures Awake(DoWrite(s, c))
  {
  }

  lemma {:induction false} AcceptedAwake(cfg: Config, s: State, c: Chunk)
    requires Accounts(s) && Awake(s)
    ensures Awake(Accept(cfg, s, c))
  {
  }

  lemma {:induction false} AcceptAwake(cfg: Config, s: State, c: Chunk)
    requires Accounts(s) && Awake(s)
    ensures Awake(DoAccept(cfg, s, c))
  {
    AcceptedAwake(cfg, s, c);
    DoWriteAwake(Accept(cfg, s, c), c);
  }

  lemma {:induction false} CompletedAwake(s: State)
    requires Awake(s) && s.writing
    ensures var t := Completed(s); Awake(Push(t, OnwriteRest(s.sync, NeedFinish(t))))
  {
  }

  lemma {:induction false} CompleteAwake(s: State)
    requires Awake(s)
    ensures Awake(DoComplete(s))
  {
    if s.writing {
      CompletedAwake(s);
      MaybeDrainAwake(Push(Completed(s), OnwriteRest(s.sync, false)));
    }
  }

  lemma {:induction false} PushBothAwake(s: State)
    requires Awake(s)
    ensures Awake(Push(Push(s, FinishMaybe), User))
  {
  }

  lemma {:induction false} FinalDoneAwake(s: State)
    requires Awake(s)
    ensures Awake(DoFinalDone(s))
  {
    PushBothAwake(FinalOver(s));
  }

  lemma {:induction false} ReturnAwake(s: State)
    requires Awake(s) && UserTurn(s)
    ensures Awake(DoReturn(s))
  {
    if s.stack.On? {
      PopAwake(s);
    }
  }

  lemma {:induction false} TickAwake(s: State)
    requires Awake(s)
    ensures Awake(DoTick(s))
  {
    if s.stack.Empty? && |s.ticks| > 0 {
      assert s.ticks == [s.ticks[0]] + s.ticks[1..];
      PushAwake(TickTaken(s), TickFrame(s.ticks[0]));
    }
  }

  lemma {:induction false} DrainDeliversAwake(s: State)
    requires Awake(s) && s.drain == Head && |s.pending| > 0
    ensures Awake(AdvanceDrain(s))
  {
  }

  lemma {:induction false} DrainGoesOnAwake(s: State)
    requires Awake(s) && s.drain == After && !s.writing
    ensures Awake(AdvanceDrain(s))
  {
  }

  lemma {:induction false} DrainAwake(s: State)
    requires Awake(s)
    ensures Awake(AdvanceDrain(s))
  {
    if s.drain == Head && |s.pending| > 0 {
      DrainDeliversAwake(s);
    } else if s.drain == After && !s.writing {
      DrainGoesOnAwake(s);
    } else {
      DrainedAwake(if s.drain == After then s.(count := s.count - 1) else s);
    }
  }

  lemma {:induction false} DrainedAwake(s: State)
    requires Awake(s)
    ensures Awake(Drained(s))
  {
  }

  lemma {:induction false} DeferredAwake(s: State, f: Frame)
    requires DrainsDue(s) && f.OnwriteRest? && (Wakes(s) || WillLook(f))
    ensures Awake(s.(ticks := s.ticks + [TickAfterWrite(f.skip)]))
  {
    assert forall x :: x in s.ticks ==> x in s.ticks + [TickAfterWrite(f.skip)];
    assert TickAfterWrite(f.skip) in s.ticks + [TickAfterWrite(f.skip)];
  }

  /** Without a frame that would look, a waiter may have only that frame to hope for. */
  lemma {:induction false} PopWakes(s: State)
    requires Awake(s) && s.stack.On?
    ensures DrainsDue(Pop(s)) && (Wakes(Pop(s)) || WillLook(s.stack.top))
  {
  }

  lemma {:induction false} OnwriteRestAwake(cfg: Config, s: State, f: Frame)
    requires DrainsDue(s) && f.OnwriteRest? && (Wakes(s) || WillLook(f))
    ensures Awake(AdvanceFrame(cfg, s, f))
  {
    if f.sync {
      DeferredAwake(s, f);
    } else {
      PushAwake(s, AfterWrite(f.skip));
    }
  }

  lemma {:induction false} NotifiedAwake(s: State)
    requires DrainsDue(s) && s.needDrain
    ensures Awake(Push(Push(Notified(s), Acknowledge), User))
  {
  }

  lemma {:induction false} SizeMeansWriting(s: State)
    requires Accounts(s) && s.length != 0
    ensures s.completed < |s.accepted|
  {
  }

  lemma {:induction false} LookAwake(s: State, skip: bool)
    requires Accounts(s) && DrainsDue(s) && (Wakes(s) || !skip)
    ensures Awake(AdvanceAfterWrite(s, skip))
  {
    if !skip && s.length == 0 && s.needDrain {
      NotifiedAwake(s);
    } else {
      if s.length != 0 {
        SizeMeansWriting(s);
      }
      PushAwake(s, Acknowledge);
    }
  }

  lemma {:induction false} FinishMaybeAwake(cfg: Config, s: State)
    requires Awake(s)
    ensures Awake(AdvanceFinishMaybe(cfg, s))
  {
  }

  lemma {:induction false} FinishCheckAwake(cfg: Config, s: State)
    requires Awake(s)
    ensures Awake(AdvanceFrame(cfg, s, FinishCheck))
  {
  }

  lemma {:induction false} EndRestAwake(cfg: Config, s: State)
    requires Awake(s)
    ensures Awake(AdvanceFrame(cfg, s, EndRest))
  {
  }

  lemma {:induction false} FrameAwake(cfg: Config, s: State, f: Frame)
    requires Awake(s) && !f.AfterWrite? && !f.OnwriteRest?
    ensures Awake(AdvanceFrame(cfg, s, f))
  {
    match f
    case ClearBuffer => DrainAwake(s);
    case Acknowledge => PushBothAwake(Acknowledged(s));
    case FinishMaybe => FinishMaybeAwake(cfg, s);
    case FinishCheck => FinishCheckAwake(cfg, s);
    case EndRest => EndRestAwake(cfg, s);
    case InWrite =>
    case User =>
  }

  lemma {:induction false} AdvanceAwake(cfg: Config, s: State)
    requires Accounts(s) && Awake(s) && s.stack.On?
    ensures Awake(AdvanceFrame(cfg, Pop(s), s.stack.top))
  {
    var f := s.stack.top;
    PopWakes(s);
    if f.AfterWrite? {
      LookAwake(Pop(s), f.skip);
    } else if f.OnwriteRest? {
      OnwriteRestAwake(cfg, Pop(s), f);
    } else {
      FrameAwake(cfg, Pop(s), f);
    }
  }

  lemma {:induction false} StepAwake(cfg: Config, s: State, a: Action)
    requires Accounts(s) && Awake(s)
    ensures Awake(Step(cfg, s, a))
  {
    if a.RunTick? {
      TickAwake(s);
    } else if a.Advance? {
      if !UserTurn(s) {
        AdvanceAwake(cfg, s);
      }
    } else if UserTurn(s) {
      UserAwake(cfg, s, a);
    }
  }

  lemma {:induction false} UserAwake(cfg: Config, s: State, a: Action)
    requires Accounts(s) && Awake(s) && UserTurn(s) && !a.Advance? && !a.RunTick?
    ensures Awake(Step(cfg, s, a))
  {
    match a
    case Write(c) => AcceptAwake(cfg, s, c);
    case Cork =>
    case Uncork => UncorkAwake(s);
    case End => EndAwake(s);
    case Complete => CompleteAwake(s);
    case FinalDone => FinalDoneAwake(s);
    case Return => ReturnAwake(s);
  }

  lemma {:induction false} RunAwake(cfg: Config, s: State, acts: seq<Action>)
    requires Inv(cfg, s) && NeverOvertakes(cfg, s, acts) && Awake(s)
    ensures Awake(Run(cfg, s, acts))
    decreases |acts|
  {
    if |acts| > 0 {
      StepKeepsInv(cfg, s, acts[0]);
      StepAwake(cfg, s, acts[0]);
      RunAwake(cfg, Step(cfg, s, acts[0]), acts[1..]);
    }
  }

  /**
   * A caller told to wait gets its drain event: once a stream that goes on has nothing left to run, complete or uncork,
   * nobody waits any more; and there are never more drain events than writes that asked for one.
   */
  lemma {:induction false} WaitersAreWoken(cfg: Config, s: State, acts: seq<Action>)
    requires Initial(s) && NeverOvertakes(cfg, s, acts)
    ensures var t := Run(cfg, s, acts);
            && t.drains + One(t.needDrain) <= t.refusals
            && (t.stack.Empty? && |t.ticks| == 0 && !t.ending && !t.writing && t.corked == 0 ==> !t.needDrain)
  {
    InitialInv(cfg, s);
    RunKeepsInv(cfg, s, acts);
    RunAwake(cfg, s, acts);
  }

  /**
   * When the last write completes, outside its hook, the drain event is emitted if and only if a caller waits for it
   * and the stream goes on.
   */
  lemma {:induction false} DrainEventIff(cfg: Config, s: State)
    requires Inv(cfg, s) && UserTurn(s) && s.writing && !s.sync && s.drain == Off && |s.pending| == 0
    ensures var t := Step(cfg, Step(cfg, Step(cfg, s, Complete), Advance), Advance);
            && t.drains == (if s.needDrain && !s.ending then s.drains + 1 else s.drains)
            && t.needDrain == (s.needDrain && s.ending)
  {
    LastCompletes(cfg, s);
    var s1 := Completed(s);
    var f := OnwriteRest(false, s.ending);
    assert Step(cfg, s, Complete) == Push(s1, f);
    LookNext(cfg, s1, f);
    var s2 := Push(s1, AfterWrite(s.ending));
    LookNext(cfg, s1, AfterWrite(s.ending));
    assert s1.length == 0 && s1.needDrain == s.needDrain && s1.drains == s.drains;
    AfterWriteTells(s1, s.ending);
  }

  lemma {:induction false} LastCompletes(cfg: Config, s: State)
    requires Inv(cfg, s) && s.writing && s.drain == Off && |s.pending| == 0
    ensures Completed(s).length == 0 && DoComplete(s) == Push(Completed(s), OnwriteRest(s.sync, s.ending))
  {
  }

  lemma {:induction false} LookNext(cfg: Config, s: State, f: Frame)
    requires f != InWrite && f != User
    ensures Step(cfg, Push(s, f), Advance) == AdvanceFrame(cfg, s, f)
  {
    assert Pop(Push(s, f)) == s;
  }

  lemma {:induction false} AfterWriteTells(s: State, skip: bool)
    requires s.length == 0
    ensures var t := AdvanceAfterWrite(s, skip);
            && t.drains == (if s.needDrain && !skip then s.drains + 1 else s.drains)
            && t.needDrain == (s.needDrain && skip)
  {
    PushTells(s, Acknowledge);
    PushTells(Notified(s), Acknowledge);
    PushTells(Push(Notified(s), Acknowledge), User);
  }

  lemma {:induction false} PushTells(s: State, f: Frame)
    ensures Push(s, f).drains == s.drains && Push(s, f).needDrain == s.needDrain
  {
  }

  // ---------------------------------------------------------------------------------------------
  // The stream comes to its end
  // ---------------------------------------------------------------------------------------------

  /** What happens next if user code only returns and completes what it was given. */
  function Cooperate(s: State): Action {
    if s.stack.On? then if UserTurn(s) then Return else Advance
    else if |s.ticks| > 0 then RunTick
    else if s.writing then Complete
    else FinalDone
  }

  function GoOn(cfg: Config, s: State): State {
    Step(cfg, s, Cooperate(s))
  }

  function Iterate<S>(step: S -> S, s: S, n: nat): S
    decreases n
  {
    if n == 0 then s else step(Iterate(step, s, n - 1))
  }

  function Settle(cfg: Config, s: State, n: nat): State {
    Iterate(t => GoOn(cfg, t), s, n)
  }

  /** How many steps a frame, with all that follows from it, may still take. */
  function FrameWork(f: Frame): nat {
    match f
    case InWrite => 1
    case User => 1
    case ClearBuffer => 1
    case FinishCheck => 2
    case FinishMaybe => 4
    case EndRest => 5
    case Acknowledge => 6
    case AfterWrite(_) => 8
    case OnwriteRest(_, _) => 10
  }

  function StackWork(fs: Stack): nat {
    match fs
    case Empty => 0
    case On(f, below) => FrameWork(f) + StackWork(below)
  }

  function TickWork(ts: seq<Tick>): nat {
    if |ts| == 0 then 0 else (if ts[0].TickAfterWrite? then 9 else 2) + TickWork(ts[1..])
  }

  function DrainWork(d: Drain): nat {
    match d
    case Off => 0
    case Head => 1
    case After => 2
  }

  function Work(s: State): nat {
    StackWork(s.stack) + TickWork(s.ticks) + QueueWork(s.drain, |s.pending|, s.writing)
    + (if s.finalPending then 6 else 0) + (if s.finalCalled then 0 else 7)
  }

  function QueueWork(d: Drain, pending: nat, writing: bool): nat {
    DrainWork(d) + 16 * pending + if writing then 13 else 0
  }

  lemma {:induction false} TickWorkPush(ts: seq<Tick>, t: Tick)
    ensures TickWork(ts + [t]) == TickWork(ts) + if t.TickAfterWrite? then 9 else 2
  {
    if |ts| > 0 {
      assert (ts + [t])[1..] == ts[1..] + [t];
      TickWorkPush(ts[1..], t);
    }
  }

  lemma {:induction false} PushWork(s: State, f: Frame)
    ensures Work(Push(s, f)) == Work(s) + FrameWork(f)
  {
  }

  lemma {:induction false} PushTwoWork(s: State, f: Frame, g: Frame)
    ensures Work(Push(Push(s, f), g)) == Work(s) + FrameWork(f) + FrameWork(g)
  {
    PushWork(s, f);
    PushWork(Push(s, f), g);
  }

  lemma {:induction false} MaybeDrainWork(s: State)
    ensures Work(MaybeDrain(s)) <= Work(s) + 2
  {
    PushWork(s.(drain := Head), ClearBuffer);
  }

  lemma {:induction false} FinishMaybeWork(cfg: Config, s: State)
    ensures Work(AdvanceFinishMaybe(cfg, s)) < Work(s) + 4
  {
    TickWorkPush(s.ticks, TickFinal);
    PushWork(s, FinishCheck);
    PushWork(FinalDue(s), FinishCheck);
    PushTwoWork(Prefinished(s), FinishCheck, User);
  }

  lemma {:induction false} DrainLoopWork(s: State)
    requires s.drain != Off
    ensures Work(AdvanceDrain(s)) < Work(s) + 1
  {
    if s.drain == Head && |s.pending| > 0 {
      TakeNextWork(s);
    } else if s.drain == After && !s.writing {
      NextRoundWork(s);
    } else {
      DrainedWork(s);
    }
  }

  lemma {:induction false} NextRoundWork(s: State)
    requires s.drain == After && !s.writing
    ensures Work(AdvanceDrain(s)) < Work(s) + 1
  {
    var t := NextRound(s);
    assert Work(t) == Work(s) - 1;
    PushWork(t, ClearBuffer);
    assert AdvanceDrain(s) == Push(t, ClearBuffer);
  }

  lemma {:induction false} DrainedWork(s: State)
    requires s.drain != Off
    ensures Work(Drained(s)) < Work(s)
  {
  }

  lemma {:induction false} TakeNextWork(s: State)
    requires s.drain == Head && |s.pending| > 0
    ensures Work(AdvanceDrain(s)) < Work(s) + 1
  {
    var t := Taking(s);
    TakenWork(s);
    PushWork(t, ClearBuffer);
    HandOverWork(Push(t, ClearBuffer), s.pending[0]);
  }

  lemma {:induction false} TakenWork(s: State)
    requires s.drain == Head && |s.pending| > 0
    ensures Work(Taking(s)) + 15 == Work(s)
  {
  }

  lemma {:induction false} HandOverWork(s: State, c: Chunk)
    ensures Work(DoWrite(s, c)) <= Work(s) + 14
  {
    PushWork(s.(writelen := c.size, writing := true, sync := true, delivered := s.delivered + [c]), InWrite);
  }

  lemma {:induction false} FrameWorks(cfg: Config, s: State, f: Frame)
    requires f != InWrite && f != User && (f == ClearBuffer ==> s.drain != Off)
    ensures Work(AdvanceFrame(cfg, s, f)) < Work(s) + FrameWork(f)
  {
    match f
    case OnwriteRest(sync, skip) => OnwriteRestWork(s, skip);
    case AfterWrite(skip) => AfterWriteWork(s, skip);
    case Acknowledge => PushTwoWork(Acknowledged(s), FinishMaybe, User);
    case FinishMaybe => FinishMaybeWork(cfg, s);
    case FinishCheck => PushWork(s.(finished := true, finishes := s.finishes + 1), User);
    case EndRest => PushWork(s.(ending := true), FinishMaybe);
    case ClearBuffer => DrainLoopWork(s);
  }

  lemma {:induction false} OnwriteRestWork(s: State, skip: bool)
    ensures Work(s.(ticks := s.ticks + [TickAfterWrite(skip)])) < Work(s) + 10
    ensures Work(Push(s, AfterWrite(skip))) < Work(s) + 10
  {
    TickWorkPush(s.ticks, TickAfterWrite(skip));
    PushWork(s, AfterWrite(skip));
  }

  lemma {:induction false} AfterWriteWork(s: State, skip: bool)
    ensures Work(AdvanceAfterWrite(s, skip)) < Work(s) + 8
  {
    PushTwoWork(Notified(s), Acknowledge, User);
    PushWork(s, Acknowledge);
  }

  lemma {:induction false} PopWork(s: State)
    requires s.stack.On?
    ensures Work(s) == Work(Pop(s)) + FrameWork(s.stack.top)
  {
  }

  lemma {:induction false} ReturnWorks(s: State)
    requires s.stack.On?
    ensures Work(DoReturn(s)) == Work(Pop(s))
  {
  }

  lemma {:induction false} StackWorks(cfg: Config, s: State)
    requires s.stack.On? && (OnDrain(s.stack) ==> s.drain != Off)
    ensures Work(Step(cfg, s, Cooperate(s))) < Work(s)
  {
    PopWork(s);
    if UserTurn(s) {
      ReturnWorks(s);
      assert Step(cfg, s, Return) == DoReturn(s);
    } else {
      FrameWorks(cfg, Pop(s), s.stack.top);
      assert Step(cfg, s, Advance) == AdvanceFrame(cfg, Pop(s), s.stack.top);
    }
  }

  lemma {:induction false} TickWorks(cfg: Config, s: State)
    requires s.stack.Empty? && |s.ticks| > 0
    ensures Work(Step(cfg, s, RunTick)) < Work(s)
  {
    FirstTickWork(s);
    PushWork(TickTaken(s), TickFrame(s.ticks[0]));
    assert Step(cfg, s, RunTick) == DoTick(s);
  }

  lemma {:induction false} FirstTickWork(s: State)
    requires |s.ticks| > 0
    ensures Work(TickTaken(s)) + FrameWork(TickFrame(s.ticks[0])) < Work(s)
  {
  }

  lemma {:induction false} CompleteWorks(cfg: Config, s: State)
    requires s.stack.Empty? && s.writing
    ensures Work(Step(cfg, s, Complete)) < Work(s)
  {
    assert Step(cfg, s, Complete) == DoComplete(s);
    assert Work(Completed(s)) == Work(s) - 13;
    PushWork(Completed(s), OnwriteRest(s.sync, true));
    PushWork(Completed(s), OnwriteRest(s.sync, false));
    MaybeDrainWork(Push(Completed(s), OnwriteRest(s.sync, false)));
  }

  lemma {:induction false} FinalDoneWorks(cfg: Config, s: State)
    requires s.stack.Empty? && |s.ticks| == 0 && s.finalPending
    ensures Work(Step(cfg, s, FinalDone)) < Work(s)
  {
    assert Step(cfg, s, FinalDone) == DoFinalDone(s);
    PushTwoWork(FinalOver(s), FinishMaybe, User);
  }

  /** Every such step leaves less work. */
  lemma {:induction false} CooperationWorks(cfg: Config, s: State)
    requires !Quiet(s) && (OnDrain(s.stack) ==> s.drain != Off)
    ensures Work(Step(cfg, s, Cooperate(s))) < Work(s)
  {
    if s.stack.On? {
      StackWorks(cfg, s);
    } else if |s.ticks| > 0 {
      TickWorks(cfg, s);
    } else if s.writing {
      CompleteWorks(cfg, s);
    } else {
      FinalDoneWorks(cfg, s);
    }
  }

  /** The stream ends, or is about to. */
  predicate Closing(s: State) {
    ClosingWith(s.ending, s.stack)
  }

  predicate ClosingWith(ending: bool, fs: Stack) {
    ending || Has(fs, EndRest)
  }

  lemma {:induction false} PushCloses(s: State, f: Frame)
    ensures Closing(s) ==> Closing(Push(s, f))
  {
  }

  lemma {:induction false} PushTwoCloses(s: State, f: Frame, g: Frame)
    ensures Closing(s) ==> Closing(Push(Push(s, f), g))
  {
    PushCloses(s, f);
    PushCloses(Push(s, f), g);
  }

  lemma {:induction false} FinishMaybeCloses(cfg: Config, s: State)
    requires Closing(s)
    ensures Closing(AdvanceFinishMaybe(cfg, s))
  {
    PushCloses(s, FinishCheck);
    PushCloses(FinalDue(s), FinishCheck);
    PushTwoCloses(Prefinished(s), FinishCheck, User);
  }

  lemma {:induction false} DrainLoopCloses(s: State)
    requires Closing(s)
    ensures Closing(AdvanceDrain(s))
  {
    if s.drain == Head && |s.pending| > 0 {
      TakeNextCloses(s);
    } else if s.drain == After && !s.writing {
      NextRoundCloses(s);
    } else {
      DrainedCloses(s);
    }
  }

  lemma {:induction false} NextRoundCloses(s: State)
    requires Closing(s)
    ensures Closing(Push(NextRound(s), ClearBuffer))
  {
    PushCloses(NextRound(s), ClearBuffer);
  }

  lemma {:induction false} DrainedCloses(s: State)
    requires Closing(s)
    ensures Closing(Drained(s))
  {
  }

  lemma {:induction false} TakeNextCloses(s: State)
    requires s.drain == Head && |s.pending| > 0 && Closing(s)
    ensures Closing(AdvanceDrain(s))
  {
    var t := Taking(s);
    PushCloses(t, ClearBuffer);
    HandOverCloses(Push(t, ClearBuffer), s.pending[0]);
  }

  lemma {:induction false} HandOverCloses(s: State, c: Chunk)
    ensures Closing(s) ==> Closing(DoWrite(s, c))
  {
    PushCloses(s.(writelen := c.size, writing := true, sync := true, delivered := s.delivered + [c]), InWrite);
  }

  lemma {:induction false} AfterWriteCloses(s: State, skip: bool)
    requires Closing(s)
    ensures Closing(AdvanceAfterWrite(s, skip))
  {
    PushTwoCloses(Notified(s), Acknowledge, User);
    PushCloses(s, Acknowledge);
  }

  /** Stream code that goes on keeps the stream closing. */
  lemma {:induction false} FrameCloses(cfg: Config, s: State, f: Frame)
    requires Closing(s) || f == EndRest
    ensures Closing(AdvanceFrame(cfg, s, f))
  {
    if f == EndRest {
      PushCloses(s.(ending := true), FinishMaybe);
    } else if f.OnwriteRest? || f.AfterWrite? || f == Acknowledge {
      WriteFrameCloses(cfg, s, f);
    } else {
      OtherFrameCloses(cfg, s, f);
    }
  }

  lemma {:induction false} WriteFrameCloses(cfg: Config, s: State, f: Frame)
    requires Closing(s) && (f.OnwriteRest? || f.AfterWrite? || f == Acknowledge)
    ensures Closing(AdvanceFrame(cfg, s, f))
  {
    match f
    case OnwriteRest(sync, skip) => OnwriteRestCloses(s, skip);
    case AfterWrite(skip) => AfterWriteCloses(s, skip);
    case Acknowledge => AcknowledgeCloses(s);
  }

  lemma {:induction false} OnwriteRestCloses(s: State, skip: bool)
    requires Closing(s)
    ensures Closing(s.(ticks := s.ticks + [TickAfterWrite(skip)])) && Closing(Push(s, AfterWrite(skip)))
  {
    PushCloses(s, AfterWrite(skip));
  }

  lemma {:induction false} AcknowledgeCloses(s: State)
    requires Closing(s)
    ensures Closing(Push(Push(Acknowledged(s), FinishMaybe), User))
  {
    PushTwoCloses(Acknowledged(s), FinishMaybe, User);
  }

  lemma {:induction false} OtherFrameCloses(cfg: Config, s: State, f: Frame)
    requires Closing(s) && f != EndRest && !f.OnwriteRest? && !f.AfterWrite? && f != Acknowledge
    ensures Closing(AdvanceFrame(cfg, s, f))
  {
    match f
    case FinishMaybe => FinishMaybeCloses(cfg, s);
    case FinishCheck => PushCloses(s.(finished := true, finishes := s.finishes + 1), User);
    case ClearBuffer => DrainLoopCloses(s);
    case InWrite =>
    case User =>
  }

  lemma {:induction false} StackCloses(cfg: Config, s: State)
    requires Closing(s) && s.stack.On?
    ensures var t := Step(cfg, s, Cooperate(s)); Closing(t) && t.corked == s.corked
  {
    if UserTurn(s) {
      ReturnCloses(s);
      assert Step(cfg, s, Return) == DoReturn(s);
    } else {
      FrameCloses(cfg, Pop(s), s.stack.top);
      assert Step(cfg, s, Advance) == AdvanceFrame(cfg, Pop(s), s.stack.top);
    }
  }

  lemma {:induction false} ReturnCloses(s: State)
    requires Closing(s) && s.stack.On? && UserTurn(s)
    ensures Closing(DoReturn(s))
  {
    HasBelow(s.stack);
  }

  lemma {:induction false} HasBelow(fs: Stack)
    requires fs.On? && fs.top != EndRest
    ensures Has(fs, EndRest) == Has(fs.below, EndRest)
  {
  }

  lemma {:induction false} IdleCloses(cfg: Config, s: State)
    requires s.ending && s.stack.Empty?
    ensures var t := Step(cfg, s, Cooperate(s)); Closing(t) && t.corked == s.corked
  {
    if |s.ticks| > 0 {
      PushCloses(TickTaken(s), TickFrame(s.ticks[0]));
      assert Step(cfg, s, RunTick) == DoTick(s);
    } else if s.writing {
      CompleteCloses(s);
      assert Step(cfg, s, Complete) == DoComplete(s);
    } else {
      PushTwoCloses(FinalOver(s), FinishMaybe, User);
      assert Step(cfg, s, FinalDone) == DoFinalDone(s);
    }
  }

  lemma {:induction false} CompleteCloses(s: State)
    ensures s.ending ==> Closing(DoComplete(s))
  {
    var t := Push(Completed(s), OnwriteRest(s.sync, false));
    PushCloses(Completed(s), OnwriteRest(s.sync, true));
    PushCloses(Completed(s), OnwriteRest(s.sync, false));
    PushCloses(t.(drain := Head), ClearBuffer);
  }

  lemma {:induction false} QuietStays(cfg: Config, s: State)
    requires Quiet(s)
    ensures GoOn(cfg, s) == s
  {
  }

  predicate ClosingDown(cfg: Config, s: State, accepted: seq<Chunk>) {
    Inv(cfg, s) && Closing(s) && s.corked == 0 && s.accepted == accepted
  }

  lemma {:induction false} CooperationKeeps(cfg: Config, s: State, accepted: seq<Chunk>)
    requires ClosingDown(cfg, s, accepted)
    ensures ClosingDown(cfg, GoOn(cfg, s), accepted)
  {
    StepKeepsInv(cfg, s, Cooperate(s));
    if s.stack.On? {
      StackCloses(cfg, s);
    } else {
      IdleCloses(cfg, s);
    }
  }

  lemma {:induction false} DrainOnStack(cfg: Config, s: State)
    requires Inv(cfg, s)
    ensures OnDrain(s.stack) ==> s.drain != Off
  {
  }

  lemma {:induction false} ClosingWorks(cfg: Config, s: State, accepted: seq<Chunk>)
    requires ClosingDown(cfg, s, accepted)
    ensures Settling(s, GoOn(cfg, s))
  {
    DrainOnStack(cfg, s);
    if Quiet(s) {
      QuietStays(cfg, s);
    } else {
      CooperationWorks(cfg, s);
    }
  }

  /** A quiet stream stays as it is, and another one has less work left. */
  predicate Settling(s: State, t: State) {
    if Quiet(s) then t == s else Work(t) < Work(s)
  }

  /** Steps that keep `good`, and leave less work until things are quiet, lead to quiet. */
  lemma {:induction false} WorkEnds<S>(
    step: S -> S, good: S -> bool, quiet: S -> bool, work: S -> nat, s: S, n: nat)
    requires good(s)
    requires forall x :: good(x) ==> good(step(x)) && if quiet(x) then step(x) == x else work(step(x)) < work(x)
    ensures good(Iterate(step, s, n)) && (quiet(Iterate(step, s, n)) || work(Iterate(step, s, n)) + n <= work(s))
    decreases n
  {
    if n > 0 {
      WorkEnds(step, good, quiet, work, s, n - 1);
    }
  }

  lemma {:induction false} SettlesQuiet(cfg: Config, s: State, accepted: seq<Chunk>)
    requires ClosingDown(cfg, s, accepted)
    ensures ClosingDown(cfg, Settle(cfg, s, Work(s)), accepted) && Quiet(Settle(cfg, s, Work(s)))
  {
    var step, good := (t: State) => GoOn(cfg, t), (t: State) => ClosingDown(cfg, t, accepted);
    forall x | good(x)
      ensures good(step(x)) && Settling(x, step(x))
    {
      CooperationKeeps(cfg, x, accepted);
      ClosingWorks(cfg, x, accepted);
    }
    WorkEnds(step, good, Quiet, Work, s, Work(s));
  }

  /** `end` uncorks the stream. */
  lemma {:induction false} EndUncorks(cfg: Config, s: State)
    requires UserTurn(s)
    ensures var t := Step(cfg, s, End); Closing(t) && t.corked == 0 && t.accepted == s.accepted
  {
    assert Step(cfg, s, End) == DoEnd(s);
    EndCloses(s);
  }

  lemma {:induction false} EndCloses(s: State)
    ensures Closing(DoEnd(s))
  {
    var t := Push(s, EndRest);
    if t.corked > 0 {
      MaybeDrainCloses(t.(corked := 1).(corked := 0));
    }
  }

  lemma {:induction false} MaybeDrainCloses(s: State)
    requires Closing(s)
    ensures Closing(MaybeDrain(s))
  {
    PushCloses(s.(drain := Head), ClearBuffer);
  }

  /**
   * In every run without overtaking, `end` leads to the finish: if user code then only returns and completes what it
   * was given, every accepted chunk is delivered in order and acknowledged, and the stream finishes.
   */
  lemma {:induction false} EndLeadsToFinish(cfg: Config, init: State, acts: seq<Action>)
    requires Initial(init) && NeverOvertakes(cfg, init, acts) && UserTurn(Run(cfg, init, acts))
    ensures var s := Step(cfg, Run(cfg, init, acts), End);
            var t := Settle(cfg, s, Work(s));
            && t.finishes == 1 && t.delivered == Run(cfg, init, acts).accepted
            && t.acked == |t.delivered| && t.length == 0 && Quiet(t)
  {
    var r := Run(cfg, init, acts);
    InitialInv(cfg, init);
    RunKeepsInv(cfg, init, acts);
    StepKeepsInv(cfg, r, End);
    EndUncorks(cfg, r);
    var s := Step(cfg, r, End);
    SettlesQuiet(cfg, s, r.accepted);
    QuietIsDone(cfg, Settle(cfg, s, Work(s)));
  }

  lemma {:induction false} QuietIsDone(cfg: Config, s: State)
    requires ClosingDown(cfg, s, s.accepted) && Quiet(s)
    ensures s.finishes == 1 && s.delivered == s.accepted && s.acked == |s.delivered| && s.length == 0
  {
    QuietHasFinished(cfg, s);
  }

  // ---------------------------------------------------------------------------------------------
  // The hooks and the prefinish event
  // ---------------------------------------------------------------------------------------------

  function FinalTicks(ts: seq<Tick>): nat {
    if |ts| == 0 then 0 else One(ts[0] == TickFinal) + FinalTicks(ts[1..])
  }

  lemma {:induction false} FinalTicksPush(ts: seq<Tick>, t: Tick)
    ensures FinalTicks(ts + [t]) == FinalTicks(ts) + One(t == TickFinal)
  {
    if |ts| > 0 {
      assert (ts + [t])[1..] == ts[1..] + [t];
      FinalTicksPush(ts[1..], t);
    }
  }

  lemma {:induction false} FinalTicksIn(ts: seq<Tick>)
    ensures FinalTicks(ts) > 0 <==> TickFinal in ts
  {
    if |ts| > 0 {
      FinalTicksIn(ts[1..]);
    }
  }

  /** What is known about `_final` and the prefinish event. */
  datatype Ending = Ending(
    prefinished: bool, prefinishes: nat, called: bool, finals: nat, due: nat, pending: bool, checks: bool,
    finished: bool)

  function EndingOf(s: State): Ending {
    Ending(s.prefinished, s.prefinishes, s.finalCalled, s.finals, FinalTicks(s.ticks), s.finalPending,
           Has(s.stack, FinishCheck), s.finished)
  }

  /** `_final` is called once, before the prefinish event, and that once, before the stream finishes. */
  predicate InTurn(cfg: Config, e: Ending) {
    && e.prefinishes == One(e.prefinished) && e.finals + e.due == One(e.called)
    && (e.called ==> cfg.hasFinal && (e.pending || e.prefinished)) && (e.due > 0 ==> e.pending)
    && (e.pending ==> e.called)
    && (e.prefinished && cfg.hasFinal ==> e.called && !e.pending)
    && (e.checks ==> e.prefinished || e.called)
    && (e.finished ==> e.prefinished)
  }

  /** A write whose hook may still complete it at once is inside that hook. */
  predicate InHook(writing: bool, sync: bool, fs: Stack) {
    writing && sync ==> Has(fs, InWrite)
  }

  predicate HooksOk(cfg: Config, s: State) {
    InTurn(cfg, EndingOf(s)) && InHook(s.writing, s.sync, s.stack)
  }

  lemma {:induction false} InitialHooks(cfg: Config, s: State)
    requires Initial(s)
    ensures HooksOk(cfg, s)
  {
  }

  lemma {:induction false} PushHooks(cfg: Config, s: State, f: Frame)
    requires HooksOk(cfg, s) && (f == FinishCheck ==> s.prefinished || s.finalCalled)
    ensures HooksOk(cfg, Push(s, f))
  {
  }

  lemma {:induction false} PopHooks(cfg: Config, s: State)
    requires HooksOk(cfg, s) && s.stack.On? && s.stack.top != InWrite
    ensures HooksOk(cfg, Pop(s))
  {
  }

  lemma {:induction false} DoWriteHooks(cfg: Config, s: State, c: Chunk)
    requires InTurn(cfg, EndingOf(s))
    ensures HooksOk(cfg, DoWrite(s, c))
  {
    var t := s.(writelen := c.size, writing := true, sync := true, delivered := s.delivered + [c]);
    assert EndingOf(t) == EndingOf(s);
    assert EndingOf(Push(t, InWrite)) == EndingOf(t);
  }

  lemma {:induction false} AcceptHooks(cfg: Config, s: State, c: Chunk)
    requires HooksOk(cfg, s)
    ensures HooksOk(cfg, DoAccept(cfg, s, c))
  {
    var t := Accept(cfg, s, c);
    assert EndingOf(t) == EndingOf(s);
    DoWriteHooks(cfg, t, c);
    assert EndingOf(AddBuffered(t, c)) == EndingOf(t);
  }

  lemma {:induction false} MaybeDrainHooks(cfg: Config, s: State)
    requires HooksOk(cfg, s)
    ensures HooksOk(cfg, MaybeDrain(s))
  {
    PushHooks(cfg, s.(drain := Head), ClearBuffer);
  }

  lemma {:induction false} UncorkHooks(cfg: Config, s: State)
    requires HooksOk(cfg, s)
    ensures HooksOk(cfg, DoUncork(s))
  {
    if s.corked > 0 {
      MaybeDrainHooks(cfg, s.(corked := s.corked - 1));
    }
  }

  lemma {:induction false} EndHooks(cfg: Config, s: State)
    requires HooksOk(cfg, s)
    ensures HooksOk(cfg, DoEnd(s))
  {
    PushHooks(cfg, s, EndRest);
    UncorkHooks(cfg, Push(s, EndRest).(corked := 1));
  }

  lemma {:induction false} CompleteHooks(cfg: Config, s: State)
    requires HooksOk(cfg, s)
    ensures HooksOk(cfg, DoComplete(s))
  {
    assert EndingOf(Completed(s)) == EndingOf(s);
    PushHooks(cfg, Completed(s), OnwriteRest(s.sync, true));
    PushHooks(cfg, Completed(s), OnwriteRest(s.sync, false));
    MaybeDrainHooks(cfg, Push(Completed(s), OnwriteRest(s.sync, false)));
  }

  lemma {:induction false} FinalDoneHooks(cfg: Config, s: State)
    requires HooksOk(cfg, s)
    ensures HooksOk(cfg, DoFinalDone(s))
  {
    FinalTicksIn(s.ticks);
    if s.finalPending && TickFinal !in s.ticks {
      FinalOverHooks(cfg, s);
      PushHooks(cfg, FinalOver(s), FinishMaybe);
      PushHooks(cfg, Push(FinalOver(s), FinishMaybe), User);
    }
  }

  lemma {:induction false} FinalOverHooks(cfg: Config, s: State)
    requires HooksOk(cfg, s) && s.finalPending && FinalTicks(s.ticks) == 0
    ensures HooksOk(cfg, FinalOver(s))
  {
  }

  lemma {:induction false} ReturnHooks(cfg: Config, s: State)
    requires HooksOk(cfg, s) && UserTurn(s)
    ensures HooksOk(cfg, DoReturn(s))
  {
    if s.stack.On? {
      if s.stack.top == InWrite {
        HookReturns(cfg, s);
      } else {
        PopHooks(cfg, s);
        assert DoReturn(s) == Pop(s);
      }
    }
  }

  lemma {:induction false} HookReturns(cfg: Config, s: State)
    requires HooksOk(cfg, s) && s.stack.On? && s.stack.top == InWrite
    ensures HooksOk(cfg, DoReturn(s))
  {
    assert EndingOf(s.(stack := s.stack.below, sync := false)) == EndingOf(s);
  }

  lemma {:induction false} TickHooks(cfg: Config, s: State)
    requires HooksOk(cfg, s)
    ensures HooksOk(cfg, DoTick(s))
  {
    if s.stack.Empty? && |s.ticks| > 0 {
      TakenHooks(cfg, s);
      PushHooks(cfg, TickTaken(s), TickFrame(s.ticks[0]));
    }
  }

  lemma {:induction false} TakenHooks(cfg: Config, s: State)
    requires HooksOk(cfg, s) && |s.ticks| > 0
    ensures HooksOk(cfg, TickTaken(s))
  {
  }

  lemma {:induction false} FinishMaybeHooks(cfg: Config, s: State)
    requires HooksOk(cfg, s)
    ensures HooksOk(cfg, AdvanceFinishMaybe(cfg, s))
  {
    if s.prefinished || s.finalCalled {
      PushHooks(cfg, s, FinishCheck);
    } else if cfg.hasFinal {
      FinalTicksPush(s.ticks, TickFinal);
      FinalDueHooks(cfg, s);
      PushHooks(cfg, FinalDue(s), FinishCheck);
    } else {
      PrefinishedHooks(cfg, s);
      PushHooks(cfg, Prefinished(s), FinishCheck);
      PushHooks(cfg, Push(Prefinished(s), FinishCheck), User);
    }
  }

  lemma {:induction false} FinalDueHooks(cfg: Config, s: State)
    requires HooksOk(cfg, s) && !s.prefinished && !s.finalCalled && cfg.hasFinal
    ensures HooksOk(cfg, FinalDue(s))
  {
    FinalTicksPush(s.ticks, TickFinal);
  }

  lemma {:induction false} PrefinishedHooks(cfg: Config, s: State)
    requires HooksOk(cfg, s) && !s.prefinished && !s.finalCalled && !cfg.hasFinal
    ensures HooksOk(cfg, Prefinished(s))
  {
  }

  lemma {:induction false} DrainLoopHooks(cfg: Config, s: State)
    requires HooksOk(cfg, s)
    ensures HooksOk(cfg, AdvanceDrain(s))
  {
    if s.drain == Head && |s.pending| > 0 {
      TakeNextHooks(cfg, s);
    } else if s.drain == After && !s.writing {
      NextRoundHooks(cfg, s);
    } else {
      DrainedHooks(cfg, s);
    }
  }

  lemma {:induction false} NextRoundHooks(cfg: Config, s: State)
    requires HooksOk(cfg, s)
    ensures HooksOk(cfg, Push(NextRound(s), ClearBuffer))
  {
    PushHooks(cfg, NextRound(s), ClearBuffer);
  }

  lemma {:induction false} TakeNextHooks(cfg: Config, s: State)
    requires HooksOk(cfg, s) && s.drain == Head && |s.pending| > 0
    ensures HooksOk(cfg, AdvanceDrain(s))
  {
    TakingHooks(cfg, s);
    PushHooks(cfg, Taking(s), ClearBuffer);
    DoWriteHooks(cfg, Push(Taking(s), ClearBuffer), s.pending[0]);
  }

  lemma {:induction false} TakingHooks(cfg: Config, s: State)
    requires HooksOk(cfg, s) && |s.pending| > 0
    ensures HooksOk(cfg, Taking(s))
  {
  }

  lemma {:induction false} DrainedHooks(cfg: Config, s: State)
    requires HooksOk(cfg, s)
    ensures HooksOk(cfg, Drained(s))
  {
  }

  lemma {:induction false} OnwriteRestHooks(cfg: Config, s: State, sync: bool, skip: bool)
    requires HooksOk(cfg, s)
    ensures HooksOk(cfg, AdvanceFrame(cfg, s, OnwriteRest(sync, skip)))
  {
    FinalTicksPush(s.ticks, TickAfterWrite(skip));
    PushHooks(cfg, s, AfterWrite(skip));
  }

  lemma {:induction false} AfterWriteHooks(cfg: Config, s: State, skip: bool)
    requires HooksOk(cfg, s)
    ensures HooksOk(cfg, AdvanceAfterWrite(s, skip))
  {
    PushHooks(cfg, s, Acknowledge);
    PushHooks(cfg, Notified(s), Acknowledge);
    PushHooks(cfg, Push(Notified(s), Acknowledge), User);
  }

  lemma {:induction false} AcknowledgeHooks(cfg: Config, s: State)
    requires HooksOk(cfg, s)
    ensures HooksOk(cfg, Push(Push(Acknowledged(s), FinishMaybe), User))
  {
    PushHooks(cfg, Acknowledged(s), FinishMaybe);
    PushHooks(cfg, Push(Acknowledged(s), FinishMaybe), User);
  }

  lemma {:induction false} FinishCheckHooks(cfg: Config, s: State)
    requires HooksOk(cfg, s) && (s.prefinished || s.finalCalled) && (s.pendingcb == 0 ==> !s.finalPending)
    ensures HooksOk(cfg, AdvanceFrame(cfg, s, FinishCheck))
  {
    if s.pendingcb == 0 {
      PushHooks(cfg, s.(finished := true, finishes := s.finishes + 1), User);
    }
  }

  lemma {:induction false} EndRestHooks(cfg: Config, s: State)
    requires HooksOk(cfg, s)
    ensures HooksOk(cfg, AdvanceFrame(cfg, s, EndRest))
  {
    PushHooks(cfg, s.(ending := true), FinishMaybe);
  }

  lemma {:induction false} FrameHooks(cfg: Config, s: State, f: Frame)
    requires HooksOk(cfg, s)
    requires f == FinishCheck ==> (s.prefinished || s.finalCalled) && (s.pendingcb == 0 ==> !s.finalPending)
    ensures HooksOk(cfg, AdvanceFrame(cfg, s, f))
  {
    match f
    case OnwriteRest(sync, skip) => OnwriteRestHooks(cfg, s, sync, skip);
    case AfterWrite(skip) => AfterWriteHooks(cfg, s, skip);
    case Acknowledge => AcknowledgeHooks(cfg, s);
    case FinishMaybe => FinishMaybeHooks(cfg, s);
    case FinishCheck => FinishCheckHooks(cfg, s);
    case EndRest => EndRestHooks(cfg, s);
    case ClearBuffer => DrainLoopHooks(cfg, s);
    case InWrite =>
    case User =>
  }

  lemma {:induction false} PendingFinalCounts(cfg: Config, s: State)
    requires Inv(cfg, s) && s.pendingcb == 0
    ensures !s.finalPending
  {
  }

  lemma {:induction false} AdvanceHooks(cfg: Config, s: State)
    requires HooksOk(cfg, s) && Inv(cfg, s) && !UserTurn(s)
    ensures HooksOk(cfg, AdvanceFrame(cfg, Pop(s), s.stack.top))
  {
    PopHooks(cfg, s);
    if s.pendingcb == 0 {
      PendingFinalCounts(cfg, s);
    }
    FrameHooks(cfg, Pop(s), s.stack.top);
  }

  lemma {:induction false} CallHooks(cfg: Config, s: State, a: Action)
    requires HooksOk(cfg, s) && UserTurn(s) && !a.Advance? && !a.RunTick?
    ensures HooksOk(cfg, Step(cfg, s, a))
  {
    match a
    case Write(c) => AcceptHooks(cfg, s, c);
    case Cork => assert EndingOf(s.(corked := s.corked + 1)) == EndingOf(s);
    case Uncork => UncorkHooks(cfg, s);
    case End => EndHooks(cfg, s);
    case Complete => CompleteHooks(cfg, s);
    case FinalDone => FinalDoneHooks(cfg, s);
    case Return => ReturnHooks(cfg, s);
  }

  lemma {:induction false} StepHooks(cfg: Config, s: State, a: Action)
    requires HooksOk(cfg, s) && Inv(cfg, s)
    ensures HooksOk(cfg, Step(cfg, s, a))
  {
    if a.RunTick? {
      TickHooks(cfg, s);
    } else if a.Advance? {
      if !UserTurn(s) {
        AdvanceHooks(cfg, s);
      }
    } else if UserTurn(s) {
      CallHooks(cfg, s, a);
    }
  }

  lemma {:induction false} RunHooks(cfg: Config, s: State, acts: seq<Action>)
    requires HooksOk(cfg, s) && Inv(cfg, s) && NeverOvertakes(cfg, s, acts)
    ensures HooksOk(cfg, Run(cfg, s, acts))
    decreases |acts|
  {
    if |acts| > 0 {
      StepKeepsInv(cfg, s, acts[0]);
      StepHooks(cfg, s, acts[0]);
      RunHooks(cfg, Step(cfg, s, acts[0]), acts[1..]);
    }
  }

  /**
   * In every run without overtaking, `_final` is called at most once and the prefinish event comes at most once; a
   * stream that has finished has had both, if it has a `_final` hook; and a write is taken for one that its hook
   * completes at once only inside a hook, so callbacks of all others are not put off.
   */
  lemma {:induction false} HooksInTurn(cfg: Config, init: State, acts: seq<Action>)
    requires Initial(init) && NeverOvertakes(cfg, init, acts)
    ensures var s := Run(cfg, init, acts);
            && s.finals <= 1 && s.prefinishes <= 1
            && (s.finishes > 0 ==> s.prefinishes == 1 && (cfg.hasFinal ==> s.finals == 1))
            && (s.prefinishes > 0 && cfg.hasFinal ==> s.finals == 1)
            && (s.writing && s.sync ==> Has(s.stack, InWrite))
  {
    InitialInv(cfg, init);
    InitialHooks(cfg, init);
    RunKeepsInv(cfg, init, acts);
    RunHooks(cfg, init, acts);
  }
}
