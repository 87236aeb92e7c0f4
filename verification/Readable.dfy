/**
 * The reading side of a stream in byte mode: `push`, `unshift` and `read` over a list of chunks. What the user's
 * `_read` hook pushes before it returns is a parameter of `read`. Emitting `readable` and scheduling further reads
 * are not part of this model.
 */
module Readable {
  import opened Options
  import opened Bytes
  import opened BufferList

  // ---------------------------------------------------------------------------------------------
  // What a reader may see
  // ---------------------------------------------------------------------------------------------

  datatype Event = Pushed(bytes: seq<Byte>) | Unshifted(bytes: seq<Byte>) | Got(bytes: seq<Byte>)

  /** The bytes held after the events, if every piece handed out was a prefix of the bytes held at that time. */
  function Replay(log: seq<Event>): Option<seq<Byte>>
    decreases |log|
  {
    if |log| == 0 then Some([])
    else
      match Replay(log[..|log| - 1])
      case None => None
      case Some(held) => After(held, log[|log| - 1])
  }

  function After(held: seq<Byte>, e: Event): Option<seq<Byte>> {
    match e
    case Pushed(b) => Some(held + b)
    case Unshifted(b) => Some(b + held)
    case Got(b) => if b <= held then Some(held[|b|..]) else None
  }

  lemma {:induction false} ReplayNext(log: seq<Event>, e: Event, held: seq<Byte>)
    requires Replay(log) == Some(held)
    ensures Replay(log + [e]) == After(held, e)
  {
    assert (log + [e])[..|log|] == log;
  }

  function Added(chunk: seq<Byte>, front: bool): Event {
    if front then Unshifted(chunk) else Pushed(chunk)
  }

  lemma {:induction false} TakingReplays(log: seq<Event>, held: seq<Byte>, n: nat)
    requires Replay(log) == Some(held) && n <= |held|
    ensures Replay(log + [Got(held[..n])]) == Some(held[n..])
  {
    ReplayNext(log, Got(held[..n]), held);
  }

  lemma {:induction false} PassedOn(log: seq<Event>, chunk: seq<Byte>, front: bool)
    requires Replay(log) == Some([])
    ensures Replay(log + [Added(chunk, front), Got(chunk)]) == Some([])
  {
    var e := Added(chunk, front);
    ReplayNext(log, e, []);
    assert [] + chunk == chunk + [] == chunk && chunk[|chunk|..] == [];
    ReplayNext(log + [e], Got(chunk), chunk);
    assert log + [e] + [Got(chunk)] == log + [e, Got(chunk)];
  }

  /** What the hook pushes before it ends the stream. */
  function PushedBytes(hook: seq<Deed>): seq<Byte>
    decreases |hook|
  {
    if |hook| == 0 || hook[0] == DoPush(Eof) then []
    else (if hook[0].DoPush? then hook[0].feed.chunk else []) + PushedBytes(hook[1..])
  }

  /** What the hook puts back, all in all. */
  function UnshiftedBytes(hook: seq<Deed>): seq<Byte>
    decreases |hook|
  {
    if |hook| == 0 then [] else (if hook[0].DoUnshift? then hook[0].chunk else []) + UnshiftedBytes(hook[1..])
  }

  lemma {:induction false} BytesOfConcat(kind: Kind, a: seq<Event>, b: seq<Event>)
    ensures BytesOf(kind, a + b) == BytesOf(kind, a) + BytesOf(kind, b)
    decreases |b|
  {
    if |b| == 0 {
      assert a + b == a;
    } else {
      var n := |b| - 1;
      assert (a + b)[..|a + b| - 1] == a + b[..n];
      BytesOfConcat(kind, a, b[..n]);
    }
  }

  /** What a call of `push` or `unshift` by the hook brings. */
  lemma {:induction false} DeedBrings(deed: Deed, ended: bool)
    ensures BytesOf(Pushes, DeedEvents(deed, ended))
         == if deed.DoPush? && deed.feed.Data? && !ended then deed.feed.chunk else []
    ensures BytesOf(Unshifts, DeedEvents(deed, ended)) == if deed.DoUnshift? then deed.chunk else []
    ensures BytesOf(Gets, DeedEvents(deed, ended)) == []
  {
    match deed
    case DoPush(feed) =>
      if feed.Data? {
        OneEvent(Pushed(feed.chunk));
      }
    case DoUnshift(chunk) => OneEvent(Unshifted(chunk));
  }

  lemma {:induction false} OneEvent(e: Event)
    ensures forall kind :: BytesOf(kind, [e]) == Part(kind, e)
  {
    forall kind
      ensures BytesOf(kind, [e]) == Part(kind, e)
    {
      assert [e][..0] == [];
    }
  }

  /** The hook brings the bytes that it pushes before the end, and those that it puts back, and takes none out. */
  lemma {:induction false} FeedBrings(hook: seq<Deed>, ended: bool)
    ensures BytesOf(Pushes, FeedEvents(hook, ended)) == if ended then [] else PushedBytes(hook)
    ensures BytesOf(Unshifts, FeedEvents(hook, ended)) == UnshiftedBytes(hook)
    ensures BytesOf(Gets, FeedEvents(hook, ended)) == []
    decreases |hook|
  {
    if |hook| > 0 {
      var first, rest := DeedEvents(hook[0], ended), FeedEvents(hook[1..], ended || hook[0] == DoPush(Eof));
      DeedBrings(hook[0], ended);
      FeedBrings(hook[1..], ended || hook[0] == DoPush(Eof));
      BytesOfConcat(Pushes, first, rest);
      BytesOfConcat(Unshifts, first, rest);
      BytesOfConcat(Gets, first, rest);
    }
  }

  /** A chunk comes in and, if `through`, is handed on at once. */
  function Through(e: Event, through: bool): seq<Event> {
    if through then [e, Got(e.bytes)] else [e]
  }

  /** What a `push` adds to the log; `through` when the chunk is handed on at once. */
  function PushEvents(feed: Feed, ended: bool, through: bool): seq<Event> {
    if feed.Eof? || |feed.chunk| == 0 || ended then [] else Through(Added(feed.chunk, false), through)
  }

  function UnshiftEvents(chunk: seq<Byte>, endEmitted: bool, through: bool): seq<Event> {
    if |chunk| == 0 || endEmitted then [] else Through(Added(chunk, true), through)
  }

  function DeedEvents(deed: Deed, ended: bool): seq<Event> {
    match deed
    case DoPush(feed) => PushEvents(feed, ended, false)
    case DoUnshift(chunk) => UnshiftEvents(chunk, false, false)
  }

  function FeedEvents(hook: seq<Deed>, ended: bool): seq<Event>
    decreases |hook|
  {
    if |hook| == 0 then []
    else DeedEvents(hook[0], ended) + FeedEvents(hook[1..], ended || hook[0] == DoPush(Eof))
  }

  lemma {:induction false} FeedFirst(before: seq<Event>, hook: seq<Deed>, ended: bool)
    requires |hook| > 0
    ensures before + DeedEvents(hook[0], ended) + FeedEvents(hook[1..], ended || hook[0] == DoPush(Eof))
         == before + FeedEvents(hook, ended)
    ensures DoPush(Eof) in hook <==> hook[0] == DoPush(Eof) || DoPush(Eof) in hook[1..]
    ensures SomePush(hook) <==> hook[0].DoPush? || SomePush(hook[1..])
  {
    assert hook == [hook[0]] + hook[1..];
  }

  datatype Kind = Pushes | Unshifts | Gets

  /** The bytes of the events of one kind, in the order of the events. */
  function BytesOf(kind: Kind, log: seq<Event>): seq<Byte>
    decreases |log|
  {
    if |log| == 0 then []
    else BytesOf(kind, log[..|log| - 1]) + Part(kind, log[|log| - 1])
  }

  function Part(kind: Kind, e: Event): seq<Byte> {
    match e
    case Pushed(b) => if kind == Pushes then b else []
    case Unshifted(b) => if kind == Unshifts then b else []
    case Got(b) => if kind == Gets then b else []
  }

  /** Without `unshift`, the pieces handed out and the bytes held are the bytes pushed, in their order. */
  lemma {:induction false} FirstInFirstOut(log: seq<Event>)
    requires Replay(log).Some? && forall e :: e in log ==> !e.Unshifted?
    ensures BytesOf(Pushes, log) == BytesOf(Gets, log) + Replay(log).value
    decreases |log|
  {
    if |log| > 0 {
      FirstInFirstOut(log[..|log| - 1]);
    }
  }

  lemma {:induction false} SplitMultiset(s: seq<Byte>, prefix: seq<Byte>)
    requires prefix <= s
    ensures multiset(s) == multiset(prefix) + multiset(s[|prefix|..])
  {
    assert s == prefix + s[|prefix|..];
  }

  function Bag(kind: Kind, log: seq<Event>): multiset<Byte> {
    multiset(BytesOf(kind, log))
  }

  lemma {:induction false} BagNext(kind: Kind, log: seq<Event>)
    requires |log| > 0
    ensures Bag(kind, log) == Bag(kind, log[..|log| - 1]) + multiset(Part(kind, log[|log| - 1]))
  {
  }

  lemma {:induction false} Balance(pushed: multiset<Byte>, unshifted: multiset<Byte>, got: multiset<Byte>,
                                   held: multiset<Byte>, b: multiset<Byte>)
    requires pushed + unshifted == got + held
    ensures (pushed + b) + unshifted == got + (held + b)
    ensures pushed + (unshifted + b) == got + (b + held)
    ensures forall rest :: held == b + rest ==> pushed + unshifted == (got + b) + rest
  {
    assert (pushed + b) + unshifted == (pushed + unshifted) + b == pushed + (unshifted + b);
    assert (got + held) + b == got + (held + b) == got + (b + held);
  }

  /** With `unshift`, no byte is lost and none made up. */
  lemma {:induction false} Conserved(log: seq<Event>)
    requires Replay(log).Some?
    ensures Bag(Pushes, log) + Bag(Unshifts, log) == Bag(Gets, log) + multiset(Replay(log).value)
    decreases |log|
  {
    if |log| > 0 {
      var before, e := log[..|log| - 1], log[|log| - 1];
      Conserved(before);
      BagNext(Pushes, log);
      BagNext(Unshifts, log);
      BagNext(Gets, log);
      var held := Replay(before).value;
      Balance(Bag(Pushes, before), Bag(Unshifts, before), Bag(Gets, before), multiset(held), multiset(e.bytes));
      if e.Got? {
        SplitMultiset(held, e.bytes);
      }
    }
  }

  // ---------------------------------------------------------------------------------------------
  // The stream
  // ---------------------------------------------------------------------------------------------

  /** The argument of `read`: everything there is, or a number of bytes. */
  datatype Amount = All | Bytes(n: int)

  /** The argument of `push`: a chunk, or `null` for the end. */
  datatype Feed = Data(chunk: seq<Byte>) | Eof

  /** What the `_read` hook does before it returns. */
  datatype Deed = DoPush(feed: Feed) | DoUnshift(chunk: seq<Byte>)

  ghost predicate SomePush(hook: seq<Deed>) {
    exists d :: d in hook && d.DoPush?
  }

  const MAX_MARK := 0x4000_0000

  predicate PowerOfTwo(n: int)
    decreases n
  {
    n == 1 || (n > 1 && n % 2 == 0 && PowerOfTwo(n / 2))
  }

  function PowerFrom(n: int, p: int): int
    requires p > 0
    decreases n - p
  {
    if n <= p then p else PowerFrom(n, 2 * p)
  }

  lemma {:induction false} PowerFromRises(n: int, p: int)
    requires PowerOfTwo(p)
    ensures var r := PowerFrom(n, p); PowerOfTwo(r) && r >= n && r >= p && (r > p ==> r < 2 * n)
    decreases n - p
  {
    if n > p {
      PowerFromRises(n, 2 * p);
    }
  }

  function RoundUp(n: int): int {
    if n >= MAX_MARK then MAX_MARK else PowerFrom(n, 1)
  }

  /** Below the greatest mark it is the least power of two that is at least `n`. */
  lemma {:induction false} RoundsUp(n: int)
    requires n > 0
    ensures var r := RoundUp(n); if n < MAX_MARK then PowerOfTwo(r) && n <= r < 2 * n else r == MAX_MARK
  {
    PowerFromRises(n, 1);
  }

  /** The mark after `read(n)`: a reader that asks for more than the mark raises it. */
  function Raised(mark: int, n: Amount): int {
    if n.Bytes? && n.n > 0 && n.n > mark then RoundUp(n.n) else mark
  }

  /**
   * What a reader gets: as many bytes as asked for if there are so many; nothing only if there are fewer, and at the
   * end of the stream none at all; and without a number all there is, unless the stream flows.
   */
  ghost predicate Serves(n: Amount, taken: Option<seq<Byte>>, before: int, after: int, ended: bool, flowing: bool) {
    && (taken.Some? ==> |taken.value| > 0)
    && (n.Bytes? && 0 < n.n <= before ==> taken.Some? && |taken.value| == n.n)
    && (n.Bytes? && n.n > 0 && taken.None? ==> after < n.n && (ended ==> after == 0))
    && (n.All? && !flowing ==> after == 0)
  }

  /** The stream wants more: a reader waits, nothing is held, or what is left behind a read is below the mark. */
  predicate Low(needReadable: bool, length: int, k: int, mark: int) {
    needReadable || length == 0 || length - k < mark
  }

  /** More bytes are asked for than are held. */
  predicate Beyond(n: Amount, length: int) {
    n.Bytes? && n.n > 0 && n.n > length
  }

  function Taken(taken: Option<seq<Byte>>): int {
    if taken.Some? then |taken.value| else 0
  }

  ghost predicate Takes(taken: Option<seq<Byte>>, k: int) {
    if k == 0 then taken == None else taken.Some? && |taken.value| == k
  }

  /** A hook that only puts bytes back leaves the amount as it was measured before. */
  ghost predicate OnlyUnshifts(hook: seq<Deed>) {
    hook != [] && !SomePush(hook)
  }

  lemma {:induction false} AmountServes(
    n: Amount, taken: Option<seq<Byte>>, before: int, mid: int, ended: bool, flowing: bool, first: int)
    requires 0 <= before <= mid && Takes(taken, HowMuch(n, mid, ended, flowing, first))
    ensures Serves(n, taken, before, mid - HowMuch(n, mid, ended, flowing, first), ended, flowing)
  {
  }

  /** `howMuchToRead`, with the length of the first chunk. */
  function HowMuch(n: Amount, length: int, ended: bool, flowing: bool, first: int): int {
    if (n.Bytes? && n.n <= 0) || (length == 0 && ended) then 0
    else if n.All? then if flowing && length != 0 then first else length
    else if n.n <= length then n.n
    else if ended then length
    else 0
  }

  /** How many bytes are handed out, case by case. */
  lemma {:induction false} AmountByCase(n: Amount, length: int, ended: bool, flowing: bool, first: int)
    requires length >= 0
    ensures var k := HowMuch(n, length, ended, flowing, first);
            && (n.Bytes? && 0 <= n.n <= length ==> k == n.n)
            && (n.Bytes? && n.n > length ==> k == if ended then length else 0)
            && (n.Bytes? && n.n < 0 ==> k == 0)
            && (n.All? && !flowing ==> k == length)
            && (n.All? && flowing && length > 0 ==> k == first)
  {
  }

  /** `read(0)` only looks: it is answered at once if the reader waits and the buffer is filled or has ended. */
  predicate JustLooks(n: Amount, need: bool, length: int, mark: int, ended: bool) {
    n == Bytes(0) && need && (ended || (mark != 0 && length >= mark) || (mark == 0 && length > 0))
  }

  class Stream {
    var buffer: BufferList
    var length: int
    var highWaterMark: int
    var ended: bool
    var endEmitted: bool
    var endPending: bool     // `endReadableNT` is scheduled
    var needReadable: bool
    var reading: bool
    var sync: bool
    var flowing: bool
    ghost var log: seq<Event>

    ghost predicate Valid()
      reads this, buffer, buffer.Repr
    {
      && this !in buffer.Repr && buffer.Valid() && NoneEmpty(buffer.chunks)
      && length == |buffer.Held()|
      && Replay(log) == Some(buffer.Held())
      && (endPending ==> ended)
      && (endEmitted ==> ended && length == 0)
    }

    constructor (highWaterMark: int)
      ensures Valid() && log == [] && fresh(buffer) && !ended && !flowing
    {
      buffer := new BufferList();
      length, this.highWaterMark := 0, highWaterMark;
      ended, endEmitted, endPending := false, false, false;
      needReadable, reading, sync, flowing := false, false, true, false;
      log := [];
    }

    method HoldFront(chunk: seq<Byte>)
      requires Valid() && chunk != [] && !endEmitted
      modifies this`length, this`log, buffer.Repr
      ensures Valid() && length == old(length) + |chunk| && log == old(log) + [Unshifted(chunk)]
      ensures buffer.Held() == chunk + old(buffer.Held())
      ensures fresh(buffer.Repr - old(buffer.Repr))
    {
      ReplayNext(log, Unshifted(chunk), buffer.Held());
      log, length := log + [Unshifted(chunk)], length + |chunk|;
      buffer.Unshift(chunk);
    }

    method HoldBack(chunk: seq<Byte>)
      requires Valid() && chunk != [] && !endEmitted
      modifies this`length, this`log, buffer.Repr
      ensures Valid() && length == old(length) + |chunk| && log == old(log) + [Pushed(chunk)]
      ensures buffer.Held() == old(buffer.Held()) + chunk
      ensures fresh(buffer.Repr - old(buffer.Repr))
    {
      ReplayNext(log, Pushed(chunk), buffer.Held());
      log, length := log + [Pushed(chunk)], length + |chunk|;
      buffer.Push(chunk);
    }

    /** `addChunk`: a flowing stream that holds nothing hands the chunk on at once. */
    method AddChunk(chunk: seq<Byte>, front: bool) returns (emitted: bool)
      requires Valid() && chunk != [] && !endEmitted
      modifies this`length, this`log, this`needReadable, buffer.Repr
      ensures Valid() && emitted == (flowing && old(length) == 0 && !sync)
      ensures length == old(length) + if emitted then 0 else |chunk|
      ensures log == old(log) + Through(Added(chunk, front), emitted)
      ensures buffer.Held() == if emitted then [] else if front then chunk + old(buffer.Held())
                               else old(buffer.Held()) + chunk
      ensures needReadable == (old(needReadable) && emitted)
      ensures fresh(buffer.Repr - old(buffer.Repr))
    {
      emitted := flowing && length == 0 && !sync;
      if emitted {
        HandOn(chunk, front);
      } else {
        Hold(chunk, front);
      }
    }

    method HandOn(chunk: seq<Byte>, front: bool)
      requires Valid() && length == 0
      modifies this`log
      ensures Valid() && log == old(log) + [Added(chunk, front), Got(chunk)] && buffer.Held() == []
    {
      PassedOn(log, chunk, front);
      log := log + [Added(chunk, front), Got(chunk)];
      assert buffer.Valid();
    }

    method Hold(chunk: seq<Byte>, front: bool)
      requires Valid() && chunk != [] && !endEmitted
      modifies this`length, this`log, this`needReadable, buffer.Repr
      ensures Valid() && length == old(length) + |chunk| && log == old(log) + [Added(chunk, front)] && !needReadable
      ensures buffer.Held() == if front then chunk + old(buffer.Held()) else old(buffer.Held()) + chunk
      ensures fresh(buffer.Repr - old(buffer.Repr))
    {
      if front {
        HoldFront(chunk);
      } else {
        HoldBack(chunk);
      }
      needReadable := false;
      assert buffer.Valid();
    }

    method PushChunk(chunk: seq<Byte>)
      requires Valid()
      modifies this`length, this`log, this`reading, this`needReadable, buffer.Repr
      ensures Valid() && length >= old(length) && reading == (old(reading) && chunk != [] && ended)
      ensures needReadable == (old(needReadable) && (ended || chunk == [] || length == 0))
      ensures log == old(log) + PushEvents(Data(chunk), ended, flowing && old(length) == 0 && !sync)
      ensures buffer.Held() == if ended || (flowing && old(length) == 0 && !sync) then old(buffer.Held())
                               else old(buffer.Held()) + chunk
      ensures fresh(buffer.Repr - old(buffer.Repr))
    {
      if |chunk| == 0 || !ended {
        reading := false;
      }
      if |chunk| > 0 && !ended {
        var _ := AddChunk(chunk, false);
      }
    }

    /** `push`: a chunk, or the end; tells whether the stream wants more. */
    method Push(feed: Feed) returns (more: bool)
      requires Valid()
      modifies this`length, this`log, this`reading, this`ended, this`needReadable, buffer.Repr
      ensures Valid() && ended == (old(ended) || feed.Eof?) && length >= old(length)
      ensures reading == (old(reading) && feed.Data? && feed.chunk != [] && old(ended))
      ensures needReadable == (old(needReadable) && (old(ended) || feed == Data([]) || (feed.Data? && length == 0)))
      ensures log == old(log) + PushEvents(feed, old(ended), flowing && old(length) == 0 && !sync)
      ensures buffer.Held() == if feed.Eof? || old(ended) || (flowing && old(length) == 0 && !sync)
                               then old(buffer.Held()) else old(buffer.Held()) + feed.chunk
      ensures more == (!ended && (length < highWaterMark || length == 0))
      ensures fresh(buffer.Repr - old(buffer.Repr))
    {
      match feed {
        case Eof =>
          reading, needReadable, ended := false, needReadable && ended, true;
        case Data(chunk) =>
          PushChunk(chunk);
      }
      more := !ended && (length < highWaterMark || length == 0);
    }

    /** `unshift` puts bytes back in front; after the end event it is refused. */
    method Unshift(chunk: seq<Byte>)
      requires Valid()
      modifies this`length, this`log, this`needReadable, buffer.Repr
      ensures Valid() && length >= old(length)
      ensures needReadable == (old(needReadable) && (chunk == [] || endEmitted || length == 0))
      ensures log == old(log) + UnshiftEvents(chunk, endEmitted, flowing && old(length) == 0 && !sync)
      ensures buffer.Held() == if endEmitted || (flowing && old(length) == 0 && !sync) then old(buffer.Held())
                               else chunk + old(buffer.Held())
      ensures fresh(buffer.Repr - old(buffer.Repr))
    {
      if |chunk| > 0 && !endEmitted {
        var _ := AddChunk(chunk, true);
      }
    }

    /** `resume` and `pause`. */
    method SetFlowing(on: bool)
      requires Valid()
      modifies this`flowing
      ensures Valid() && flowing == on
    {
      flowing := on;
      assert buffer.Valid();
    }

    /** `fromList`: takes out `n` bytes. */
    method TakeOut(n: int) returns (taken: seq<Byte>)
      requires Valid() && 0 < n <= length
      modifies this`length, this`log, buffer.Repr
      ensures Valid() && taken == old(buffer.Held())[..n] && buffer.Held() == old(buffer.Held())[n..]
      ensures log == old(log) + [Got(taken)]
      ensures buffer.Repr == old(buffer.Repr)
    {
      ghost var held := buffer.Held();
      TakingReplays(log, held, n);
      if n >= length {
        taken := TakeAll();
        assert held[..n] == held && held[n..] == [];
      } else {
        taken := buffer.Consume(n);
      }
      length := length - n;
      log := log + [Got(taken)];
    }

    method TakeAll() returns (taken: seq<Byte>)
      requires buffer.Valid() && buffer.Held() != [] && length == |buffer.Held()|
      modifies buffer
      ensures buffer.Valid() && taken == old(buffer.Held()) && buffer.chunks == [] && buffer.Repr == old(buffer.Repr)
    {
      if buffer.length == 1 {
        FlattenOne(buffer.chunks[0]);
        assert buffer.chunks == [buffer.chunks[0]];
        taken := buffer.head.data;
      } else {
        var all := buffer.Concat(length);
        taken := all[..];
      }
      buffer.Clear();
    }

    /** `howMuchToRead`. */
    method Measure(n: Amount) returns (k: int)
      requires Valid()
      modifies this`highWaterMark, this`needReadable
      ensures Valid() && k == HowMuch(n, length, ended, flowing, FirstLength()) && 0 <= k <= length
      ensures highWaterMark == if length == 0 && ended then old(highWaterMark) else Raised(old(highWaterMark), n)
      ensures needReadable == (old(needReadable) || (n.Bytes? && n.n > length && n.n > 0 && !ended))
    {
      if |buffer.chunks| > 0 {
        FlattenAt(buffer.chunks, 0);
      }
      k := HowMuch(n, length, ended, flowing, if buffer.head == null then 0 else |buffer.head.data|);
      if n.Bytes? && n.n > 0 && !(length == 0 && ended) {
        if n.n > highWaterMark {
          highWaterMark := RoundUp(n.n);
        }
        if n.n > length && !ended {
          needReadable := true;
        }
      }
    }

    ghost function FirstLength(): int
      reads this`buffer, buffer`chunks
    {
      if |buffer.chunks| == 0 then 0 else |buffer.chunks[0]|
    }

    /** `endReadable` schedules the end event. */
    method EndReadable()
      requires Valid() && ended
      modifies this`endPending
      ensures Valid() && endPending == (old(endPending) || !endEmitted)
    {
      if !endEmitted {
        endPending := true;
      }
    }

    /** `endReadableNT`: the end event, when everything has been read. */
    method EndTick()
      requires Valid()
      modifies this`endPending, this`endEmitted
      ensures Valid() && endEmitted == (old(endEmitted) || (old(endPending) && length == 0)) && !endPending
    {
      if endPending {
        endPending := false;
        if !endEmitted && length == 0 {
          endEmitted := true;
        }
      }
    }

    method EnterHook()
      requires Valid()
      modifies this`reading, this`sync, this`needReadable
      ensures Valid() && reading && sync && needReadable == (old(needReadable) || length == 0)
    {
      reading, sync, needReadable := true, true, needReadable || length == 0;
      assert buffer.Valid();
    }

    method LeaveHook()
      requires Valid()
      modifies this`sync
      ensures Valid() && !sync
    {
      sync := false;
      assert buffer.Valid();
    }

    method EndIfEmpty()
      requires Valid()
      modifies this`endPending
      ensures Valid() && endPending == (old(endPending) || (length == 0 && ended && !endEmitted))
    {
      if length == 0 && ended {
        EndReadable();
      }
    }

    /** Calls the `_read` hook, which does `hook` before it returns. */
    method CallHook(hook: seq<Deed>)
      requires Valid() && !ended
      modifies this`reading, this`sync, this`needReadable, this`length, this`log, this`ended, buffer.Repr
      ensures Valid() && log == old(log) + FeedEvents(hook, false)
      ensures length >= old(length) && ended == (DoPush(Eof) in hook)
      ensures hook == [] ==> buffer.chunks == old(buffer.chunks)
      ensures !sync && (SomePush(hook) <==> !reading)
      ensures fresh(buffer.Repr - old(buffer.Repr))
    {
      EnterHook();
      FeedAll(hook);
      LeaveHook();
    }

    method FeedAll(hook: seq<Deed>)
      requires Valid() && sync && !endEmitted
      modifies this`length, this`log, this`reading, this`ended, this`needReadable, buffer.Repr
      ensures Valid() && log == old(log) + FeedEvents(hook, old(ended))
      ensures length >= old(length) && ended == (old(ended) || DoPush(Eof) in hook)
      ensures hook == [] ==> buffer.chunks == old(buffer.chunks)
      ensures reading ==> old(reading) && (old(ended) || !SomePush(hook))
      ensures !SomePush(hook) ==> reading == old(reading)
      ensures fresh(buffer.Repr - old(buffer.Repr))
      decreases |hook|
    {
      if |hook| > 0 {
        FeedFirst(log, hook, ended);
        DoDeed(hook[0]);
        FeedAll(hook[1..]);
      }
    }

    method DoDeed(deed: Deed)
      requires Valid() && sync && !endEmitted
      modifies this`length, this`log, this`reading, this`ended, this`needReadable, buffer.Repr
      ensures Valid() && log == old(log) + DeedEvents(deed, old(ended))
      ensures length >= old(length) && ended == (old(ended) || deed == DoPush(Eof))
      ensures reading ==> old(reading) && (old(ended) || deed.DoUnshift?)
      ensures deed.DoUnshift? ==> reading == old(reading)
      ensures fresh(buffer.Repr - old(buffer.Repr))
    {
      match deed {
        case DoPush(feed) => var _ := Push(feed);
        case DoUnshift(chunk) => Unshift(chunk);
      }
    }

    /** The middle of `read`: calls the hook if the stream wants more, and measures again if that brought anything. */
    method Prepare(n: Amount, first: int, hook: seq<Deed>) returns (k: int, ghost called: bool)
      requires Valid() && first == HowMuch(n, length, ended, flowing, FirstLength()) && 0 <= first <= length
      modifies this`reading, this`sync, this`needReadable, this`length, this`log, this`ended, this`highWaterMark
      modifies buffer.Repr
      ensures Valid() && 0 <= k <= length
      ensures k == if called && OnlyUnshifts(hook) then first
                   else HowMuch(n, length, ended, flowing, FirstLength())
      ensures log == old(log) + (if called then FeedEvents(hook, false) else [])
      ensures length >= old(length) && ended == (old(ended) || (called && DoPush(Eof) in hook))
      ensures called <==> !old(ended) && !old(reading) && Low(old(needReadable), old(length), first, old(highWaterMark))
      ensures !called ==> reading == old(reading) && needReadable == old(needReadable) && length == old(length)
      ensures called ==> !sync && (SomePush(hook) <==> !reading)
      ensures highWaterMark == if called && SomePush(hook) && !(length == 0 && ended) then Raised(old(highWaterMark), n)
                               else old(highWaterMark)
      ensures fresh(buffer.Repr - old(buffer.Repr))
    {
      k := first;
      called := (needReadable || length == 0 || length - k < highWaterMark) && !ended && !reading;
      if (needReadable || length == 0 || length - k < highWaterMark) && !ended && !reading {
        k := HookAndMeasure(n, first, hook);
      }
    }

    /** Calls the hook and, if it has pushed, measures again. */
    method HookAndMeasure(n: Amount, first: int, hook: seq<Deed>) returns (k: int)
      requires Valid() && !ended && first == HowMuch(n, length, ended, flowing, FirstLength()) && 0 <= first <= length
      modifies this`reading, this`sync, this`needReadable, this`length, this`log, this`ended, this`highWaterMark
      modifies buffer.Repr
      ensures Valid() && 0 <= k <= length && length >= old(length) && !sync && (SomePush(hook) <==> !reading)
      ensures k == if OnlyUnshifts(hook) then first else HowMuch(n, length, ended, flowing, FirstLength())
      ensures log == old(log) + FeedEvents(hook, false) && ended == (DoPush(Eof) in hook)
      ensures highWaterMark == if SomePush(hook) && !(length == 0 && ended) then Raised(old(highWaterMark), n)
                               else old(highWaterMark)
      ensures fresh(buffer.Repr - old(buffer.Repr))
    {
      k := first;
      CallHook(hook);
      if !reading {
        k := Measure(n);
      }
    }

    /** The end of `read`: takes out `k` bytes. */
    method Deliver(n: Amount, k: int) returns (taken: Option<seq<Byte>>)
      requires Valid() && 0 <= k <= length
      modifies this`needReadable, this`length, this`log, this`endPending, buffer.Repr
      ensures Valid() && length == old(length) - k
      ensures Takes(taken, k)
      ensures log == old(log) + (if taken.Some? then [Got(taken.value)] else [])
      ensures needReadable == if length == 0 && !ended then true else if k > 0 then old(needReadable)
                              else length <= highWaterMark
      ensures endPending == (old(endPending) || (length == 0 && ended && !endEmitted && n != Bytes(k)))
    {
      taken := None;
      if k > 0 {
        var bytes := TakeOut(k);
        taken := Some(bytes);
      }
      NoteNeed(k);
      if length == 0 && n != Bytes(k) && ended {
        EndReadable();
      }
    }

    /** The buffer is filled to the mark. */
    predicate Stocked()
      reads this
    {
      if highWaterMark != 0 then length >= highWaterMark else length > 0
    }

    method NoteNeed(k: int)
      requires Valid()
      modifies this`needReadable
      ensures Valid()
      ensures needReadable == if length == 0 && !ended then true else if k > 0 then old(needReadable)
                              else length <= highWaterMark
    {
      needReadable := if length == 0 && !ended then true else if k > 0 then needReadable else length <= highWaterMark;
      assert buffer.Valid();
    }

    method PrepareAndDeliver(n: Amount, first: int, hook: seq<Deed>)
      returns (taken: Option<seq<Byte>>, ghost called: bool)
      requires Valid() && first == HowMuch(n, length, ended, flowing, FirstLength()) && 0 <= first <= length
      modifies this`reading, this`sync, this`needReadable, this`length, this`log, this`ended, this`highWaterMark
      modifies this`endPending, buffer.Repr
      ensures Valid()
      ensures log == old(log) + (if called then FeedEvents(hook, false) else [])
                     + (if taken.Some? then [Got(taken.value)] else [])
      ensures called <==> !old(ended) && !old(reading) && Low(old(needReadable), old(length), first, old(highWaterMark))
      ensures ended == (old(ended) || (called && DoPush(Eof) in hook))
      ensures if called && OnlyUnshifts(hook) then Takes(taken, first)
              else Serves(n, taken, old(length), length, ended, flowing)
      ensures taken.None? && !ended ==> needReadable || length > highWaterMark
      ensures endPending == (old(endPending) || (length == 0 && ended && !endEmitted && n != Bytes(Taken(taken))))
    {
      var k;
      k, called := Prepare(n, first, hook);
      ghost var mid, head := length, FirstLength();
      taken := Deliver(n, k);
      if !(called && OnlyUnshifts(hook)) {
        AmountServes(n, taken, old(length), mid, ended, flowing, head);
      }
    }

    /**
     * `read`. The hook is called, `called`, exactly when the stream has not ended, is not in the hook, and is low on
     * bytes; the bytes handed out are a prefix of those held by then, as many as asked for if there are so many, and
     * all of them once the stream has ended. Who gets nothing from a live stream is told when there is more, and who
     * finds an ended stream empty is told the end.
     */
    method Read(n: Amount, hook: seq<Deed>) returns (taken: Option<seq<Byte>>, ghost called: bool)
      requires Valid()
      modifies this, buffer.Repr
      ensures Valid() && buffer == old(buffer) && flowing == old(flowing)
      ensures log == old(log) + (if called then FeedEvents(hook, false) else [])
                     + (if taken.Some? then [Got(taken.value)] else [])
      ensures called <==> !old(ended) && !old(reading)
                          && !JustLooks(n, old(needReadable), old(length), old(highWaterMark), old(ended))
                          && Low(old(needReadable) || Beyond(n, old(length)), old(length),
                                 HowMuch(n, old(length), false, flowing, old(FirstLength())),
                                 Raised(old(highWaterMark), n))
      ensures ended == (old(ended) || (called && DoPush(Eof) in hook))
      ensures if called && OnlyUnshifts(hook)
              then Takes(taken, HowMuch(n, old(length), old(ended), flowing, old(FirstLength())))
              else Serves(n, taken, old(length), length, ended, flowing)
      ensures taken.None? && !ended && !JustLooks(n, old(needReadable), old(length), old(highWaterMark), old(ended)) ==>
                needReadable || length > highWaterMark
      ensures endEmitted == old(endEmitted)
      ensures endPending == (old(endPending) || (length == 0 && ended && !endEmitted
                             && (old(length == 0 && ended) || n != Bytes(Taken(taken)))))
    {
      called := false;
      taken := None;
      if n == Bytes(0) && needReadable && (Stocked() || ended) {
        Look();
      } else {
        taken, called := ReadOn(n, hook);
      }
    }

    method ReadOn(n: Amount, hook: seq<Deed>) returns (taken: Option<seq<Byte>>, ghost called: bool)
      requires Valid()
      modifies this`reading, this`sync, this`needReadable, this`length, this`log, this`ended, this`highWaterMark
      modifies this`endPending, buffer.Repr
      ensures Valid()
      ensures log == old(log) + (if called then FeedEvents(hook, false) else [])
                     + (if taken.Some? then [Got(taken.value)] else [])
      ensures called <==> !old(ended) && !old(reading)
                          && Low(old(needReadable) || Beyond(n, old(length)), old(length),
                                 HowMuch(n, old(length), false, flowing, old(FirstLength())),
                                 Raised(old(highWaterMark), n))
      ensures ended == (old(ended) || (called && DoPush(Eof) in hook))
      ensures if called && OnlyUnshifts(hook)
              then Takes(taken, HowMuch(n, old(length), old(ended), flowing, old(FirstLength())))
              else Serves(n, taken, old(length), length, ended, flowing)
      ensures taken.None? && !ended ==> needReadable || length > highWaterMark
      ensures endPending == (old(endPending) || (length == 0 && ended && !endEmitted
                             && (old(length == 0 && ended) || n != Bytes(Taken(taken)))))
    {
      called := false;
      taken := None;
      var k := Measure(n);
      if k == 0 && ended {
        EndIfEmpty();
      } else {
        taken, called := PrepareAndDeliver(n, k, hook);
      }
    }

    method Look()
      requires Valid()
      modifies this`endPending, this`needReadable
      ensures Valid() && endPending == (old(endPending) || (length == 0 && ended && !endEmitted))
      ensures needReadable == (old(needReadable) && length == 0 && ended)
    {
      if length == 0 && ended {
        EndReadable();
      } else {
        needReadable := false;
      }
    }

    /** The `readable` event has been emitted; the reader waits again while there is little to read. */
    method ReadableTick()
      requires Valid()
      modifies this`needReadable
      ensures Valid() && needReadable == (!flowing && !ended && length <= highWaterMark)
    {
      needReadable := !flowing && !ended && length <= highWaterMark;
      assert buffer.Valid();
    }
  }
}
