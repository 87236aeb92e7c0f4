/**
 * The streaming UTF-8 decoder: bytes arrive in chunks that may split a character, and the decoder keeps the
 * unfinished character in a four-byte buffer between calls.
 */
module StringDecoder {
  import opened Bytes
  import opened Seqs
  import opened Utf8

  /** Bytes still missing from the buffered character, its full length, and the buffer itself. */
  datatype State = State(lastNeed: nat, lastTotal: nat, lastChar: seq<Byte>)

  ghost predicate Consistent(st: State) {
    |st.lastChar| == 4 && (st.lastNeed > 0 ==> st.lastNeed < st.lastTotal <= 4)
  }

  /** Length announced by a byte: 0 for ASCII, -1 for a continuation byte, -2 for a byte that starts nothing. */
  function Announced(b: Byte): int {
    if b <= 127 then 0
    else if b / 32 == 6 then 2
    else if b / 16 == 14 then 3
    else if b / 8 == 30 then 4
    else if b / 64 == 2 then -1
    else -2
  }

  /** The bytes missing at the end of `f` and the length of the unfinished character; `(0, _)` if none is seen. */
  function Incomplete(f: seq<Byte>): (r: (nat, nat))
    ensures r.0 > 0 ==> r.0 < r.1 <= 4 && r.1 - r.0 <= |f|
  {
    var n := |f|;
    if n < 1 then (0, 0)
    else
      var a := Announced(f[n - 1]);
      if a >= 0 then (if a > 0 then a - 1 else 0, a)
      else if n < 2 || a == -2 then (0, 0)
      else
        var a := Announced(f[n - 2]);
        if a >= 0 then (if a > 0 then a - 2 else 0, a)
        else if n < 3 || a == -2 then (0, 0)
        else
          var a := Announced(f[n - 3]);
          if a > 2 then (a - 3, a) else (0, 0)
  }

  /** Decodes `f` up to an unfinished character, which goes into the buffer. */
  function Text(st: State, f: seq<Byte>): (r: (State, seq<Unit>))
    requires Consistent(st) && st.lastNeed == 0
    ensures Consistent(r.0)
  {
    var (need, total) := Incomplete(f);
    if need == 0 then (st, Decode(f))
    else
      var n := |f| - (total - need);
      (State(need, total, f[n..] + st.lastChar[total - need..]), Decode(f[..n]))
  }

  /** How many bytes of `e` to skip because the awaited character is broken off there, if it is. */
  function BrokenAt(st: State, e: seq<Byte>): (k: int)
    requires e != []
    ensures -1 <= k < |e|
  {
    if !IsTail(e[0]) then 0
    else if st.lastNeed > 1 && |e| > 1 && !IsTail(e[1]) then 1
    else if st.lastNeed > 2 && |e| > 2 && !IsTail(e[2]) then 2
    else -1
  }

  /** One call of `write`. */
  function WriteChunk(st: State, e: seq<Byte>): (r: (State, seq<Unit>))
    requires Consistent(st)
    ensures Consistent(r.0)
  {
    if |e| == 0 then (st, [])
    else if st.lastNeed == 0 then Text(st, e)
    else
      var have := st.lastTotal - st.lastNeed;
      var k := BrokenAt(st, e);
      if k >= 0 then
        var (st', text) := Text(st.(lastNeed := 0), e[k..]);
        (st', [REPLACEMENT] + text)
      else if st.lastNeed <= |e| then
        var filled := st.lastChar[..have] + e[..st.lastNeed] + st.lastChar[st.lastTotal..];
        var first := Decode(filled[..st.lastTotal]);
        if st.lastNeed < |e| then
          var (st', text) := Text(State(0, st.lastTotal, filled), e[st.lastNeed..]);
          (st', first + text)
        else (State(0, st.lastTotal, filled), first)
      else
        (State(st.lastNeed - |e|, st.lastTotal, st.lastChar[..have] + e + st.lastChar[have + |e|..]), [])
  }

  /** `end` without a last chunk. */
  function End(st: State): seq<Unit> {
    if st.lastNeed > 0 then [REPLACEMENT] else []
  }

  /** All `write` results of a stream, followed by the result of `end`. */
  function Stream(st: State, chunks: seq<seq<Byte>>): seq<Unit>
    requires Consistent(st)
    decreases |chunks|
  {
    if |chunks| == 0 then End(st)
    else var (st', text) := WriteChunk(st, chunks[0]); text + Stream(st', chunks[1..])
  }

  // ---------------------------------------------------------------------------------------------
  // Unfinished characters
  // ---------------------------------------------------------------------------------------------

  /** A byte that announces a character, and some but not all of the continuation bytes it asks for. */
  predicate Pending(p: seq<Byte>) {
    0 < |p| < Announced(p[0]) && forall i :: 1 <= i < |p| ==> IsTail(p[i])
  }

  /** No unfinished character stands at the end of `a`. */
  ghost predicate Clean(a: seq<Byte>) {
    forall i :: 0 <= i < |a| ==> !Pending(a[i..])
  }

  lemma {:induction false} AnnouncedBytes(b: Byte)
    ensures Announced(b) == -1 <==> IsTail(b)
    ensures Announced(b) > 0 ==> Announced(b) == LeadLength(b) && !IsTail(b)
  {
  }

  /** What the end check finds, and what stands before it. */
  function Unfinished(f: seq<Byte>): (p: seq<Byte>)
    ensures |p| <= |f|
  {
    var (need, total) := Incomplete(f);
    if need == 0 then [] else f[|f| - (total - need)..]
  }

  function Finished(f: seq<Byte>): seq<Byte> {
    f[..|f| - |Unfinished(f)|]
  }

  lemma {:induction false} FinishedUnfinished(f: seq<Byte>)
    ensures Finished(f) + Unfinished(f) == f
  {
  }

  lemma {:induction false} UnfinishedPending(f: seq<Byte>)
    ensures Unfinished(f) != [] ==> Pending(Unfinished(f)) && Incomplete(f).1 == Announced(Unfinished(f)[0])
    ensures Unfinished(f) != [] ==> Incomplete(f).0 == Announced(Unfinished(f)[0]) - |Unfinished(f)|
  {
    var (need, total) := Incomplete(f);
    if need > 0 {
      var n, k := |f|, total - need;
      LookBack(f);
      assert f[n - k..][0] == f[n - k];
      assert k >= 2 ==> f[n - k..][1] == f[n - k + 1];
      assert k == 3 ==> f[n - k..][2] == f[n - k + 2];
    }
  }

  lemma {:induction false} LookBack(f: seq<Byte>)
    ensures var (need, total) := Incomplete(f);
            need > 0 ==>
              && 1 <= total - need <= 3 && total - need <= |f| && Announced(f[|f| - (total - need)]) == total
              && forall i :: |f| - (total - need) < i < |f| ==> IsTail(f[i])
  {
    var n := |f|;
    if n >= 1 { AnnouncedBytes(f[n - 1]); }
    if n >= 2 { AnnouncedBytes(f[n - 2]); }
    if n >= 3 { AnnouncedBytes(f[n - 3]); }
  }

  /** The end check finds an unfinished character wherever there is one. */
  lemma {:induction false} UnfinishedIs(w: seq<Byte>, q: seq<Byte>)
    requires Pending(q)
    ensures Unfinished(w + q) == q && Finished(w + q) == w
  {
    var f := w + q;
    var n := |f|;
    assert forall i :: 0 <= i < |q| ==> f[|w| + i] == q[i];
    AnnouncedBytes(q[0]);
    if |q| >= 2 { AnnouncedBytes(q[1]); }
    if |q| >= 3 { AnnouncedBytes(q[2]); }
    assert Incomplete(f) == (Announced(q[0]) - |q|, Announced(q[0]));
    assert f[n - |q|..] == q;
  }

  lemma {:induction false} UnfinishedClean(f: seq<Byte>)
    ensures Unfinished(f) == [] <==> Clean(f)
  {
    if Unfinished(f) != [] {
      UnfinishedPending(f);
      assert f[|f| - |Unfinished(f)|..] == Unfinished(f);
    }
    forall i | 0 <= i < |f| && Pending(f[i..])
      ensures Unfinished(f) != []
    {
      UnfinishedIs(f[..i], f[i..]);
      Halves(f, i);
    }
  }

  // ---------------------------------------------------------------------------------------------
  // Where bytes may be cut
  // ---------------------------------------------------------------------------------------------

  /** No character goes over from `a` to `b`. */
  ghost predicate Boundary(a: seq<Byte>, b: seq<Byte>) {
    Clean(a) || (|b| > 0 && !IsTail(b[0]))
  }

  lemma {:induction false} CharShape(c: seq<Byte>)
    requires IsChar(c)
    ensures if |c| == 1 then Announced(c[0]) == 0 else Announced(c[0]) == |c|
    ensures forall i :: 1 <= i < |c| ==> IsTail(c[i])
  {
  }

  lemma {:induction false} TakeSame(a: seq<Byte>, x: seq<Byte>)
    requires a != [] && a <= x && TryDecode(a) != -1
    ensures TryDecode(x) == TryDecode(a)
  {
  }

  lemma {:induction false} AcceptedInside(a: seq<Byte>, b: seq<Byte>)
    requires |a| > 0 && TryDecode(a + b) != -1 && LeadLength(a[0]) <= |a|
    ensures TryDecode(a) != -1
  {
    AcceptsExactlyChars(a);
    AcceptsExactlyChars(a + b);
    assert (a + b)[..LeadLength(a[0])] == a[..LeadLength(a[0])];
  }

  /** A character that only `b` makes acceptable goes over from `a` to `b`. */
  lemma {:induction false} RejectsAcross(a: seq<Byte>, b: seq<Byte>)
    requires |a| > 0 && TryDecode(a) == -1 && TryDecode(a + b) != -1
    ensures !Boundary(a, b)
  {
    var x := a + b;
    var m := LeadLength(x[0]);
    if m <= |a| {
      AcceptedInside(a, b);
    } else {
      AcceptsExactlyChars(x);
      CharShape(x[..m]);
      assert forall i :: 0 <= i < |a| ==> a[i] == x[..m][i];
      assert a[0..] == a && Pending(a);
      assert b[0] == x[..m][|a|];
    }
  }

  lemma {:induction false} TakeAtBoundary(a: seq<Byte>, b: seq<Byte>)
    requires |a| > 0 && Boundary(a, b)
    ensures TryDecode(a + b) == TryDecode(a) && TakeScalar(a + b) == TakeScalar(a) && TakeLength(a + b) == TakeLength(a)
  {
    if TryDecode(a) != -1 {
      TakeSame(a, a + b);
    } else if TryDecode(a + b) != -1 {
      RejectsAcross(a, b);
    }
  }

  lemma {:induction false} CleanSuffix(a: seq<Byte>, n: nat)
    requires Clean(a) && n <= |a|
    ensures Clean(a[n..])
  {
    forall i | 0 <= i < |a[n..]|
      ensures !Pending(a[n..][i..])
    {
      assert a[n..][i..] == a[n + i..];
    }
  }

  /** Decoding may be cut at a boundary. */
  lemma {:induction false} DecodedSplits(a: seq<Byte>, b: seq<Byte>)
    requires Boundary(a, b)
    ensures Decoded(a + b) == Decoded(a) + Decoded(b)
    decreases |a|
  {
    if |a| == 0 {
      WithNothing(b, a);
      WithNothing(Decoded(b), Decoded(a));
    } else {
      var n := TakeLength(a);
      TakeAtBoundary(a, b);
      if Clean(a) {
        CleanSuffix(a, n);
      }
      DecodedSplits(a[n..], b);
      CutConcat(a, b, n);
      Assoc([TakeScalar(a)], Decoded(a[n..]), Decoded(b));
    }
  }

  lemma {:induction false} CutConcat<T>(a: seq<T>, b: seq<T>, n: nat)
    requires n <= |a|
    ensures (a + b)[n..] == a[n..] + b
  {
  }

  lemma {:induction false} DecodeSplits(a: seq<Byte>, b: seq<Byte>)
    requires Boundary(a, b)
    ensures Decode(a + b) == Decode(a) + Decode(b)
  {
    DecodedSplits(a, b);
    UnitsConcat(Decoded(a), Decoded(b));
  }

  /** So may looking for the unfinished character. */
  lemma {:induction false} UnfinishedSplits(a: seq<Byte>, b: seq<Byte>)
    requires Boundary(a, b)
    ensures Unfinished(a + b) == Unfinished(b) && Finished(a + b) == a + Finished(b)
    ensures Decode(Finished(a + b)) == Decode(a) + Decode(Finished(b))
  {
    var u := Unfinished(b);
    if |u| > 0 {
      UnfinishedPending(b);
      FinishedUnfinished(b);
      Assoc(a, Finished(b), u);
      UnfinishedIs(a + Finished(b), u);
    } else {
      UnfinishedClean(b);
      CleanConcat(a, b);
      UnfinishedClean(a + b);
    }
    DecodeBeforeUnfinished(a, b);
  }

  lemma {:induction false} CleanConcat(a: seq<Byte>, b: seq<Byte>)
    requires Boundary(a, b) && Clean(b)
    ensures Clean(a + b)
  {
    forall i | 0 <= i < |a + b|
      ensures !Pending((a + b)[i..])
    {
      var s := (a + b)[i..];
      if i < |a| {
        CutConcat(a, b, i);
        assert |b| == 0 ==> s == a[i..];
        if Pending(s) {
          PendingPrefix(a[i..], b);
        }
      } else {
        assert s == b[i - |a|..];
      }
    }
  }

  lemma {:induction false} PendingPrefix(a: seq<Byte>, b: seq<Byte>)
    requires |a| > 0 && Pending(a + b)
    ensures Pending(a) && (|b| > 0 ==> IsTail(b[0]))
  {
    var s := a + b;
    assert forall i :: 0 <= i < |a| ==> s[i] == a[i];
    assert |b| > 0 ==> b[0] == s[|a|];
  }

  lemma {:induction false} DecodeBeforeUnfinished(a: seq<Byte>, b: seq<Byte>)
    requires Boundary(a, b)
    ensures Decode(a + Finished(b)) == Decode(a) + Decode(Finished(b))
  {
    if |Finished(b)| == 0 {
      WithNothing(a, Finished(b));
      WithNothing(Decode(a), Decode(Finished(b)));
    } else {
      DecodeSplits(a, Finished(b));
    }
  }

  function Repeat(u: Unit, n: nat): (r: seq<Unit>)
    ensures |r| == n
  {
    if n == 0 then [] else [u] + Repeat(u, n - 1)
  }

  lemma {:induction false} TailsDecode(t: seq<Byte>)
    requires forall i :: 0 <= i < |t| ==> IsTail(t[i])
    ensures Decode(t) == Repeat(REPLACEMENT, |t|)
  {
    if |t| > 0 {
      TailsDecode(t[1..]);
    }
  }

  /** The whole-input decoder writes one replacement character for each byte of an unfinished character. */
  lemma {:induction false} PendingDecodes(q: seq<Byte>)
    requires Pending(q)
    ensures Decode(q) == Repeat(REPLACEMENT, |q|)
  {
    AnnouncedBytes(q[0]);
    TailsDecode(q[1..]);
  }

  lemma {:induction false} WholeDecode(b: seq<Byte>)
    ensures Decode(b) == Decode(Finished(b)) + Repeat(REPLACEMENT, |Unfinished(b)|)
  {
    var w, u := Finished(b), Unfinished(b);
    FinishedUnfinished(b);
    if |u| > 0 {
      UnfinishedPending(b);
      AnnouncedBytes(u[0]);
      PendingDecodes(u);
      DecodeSplits(w, u);
    } else {
      WithNothing(w, u);
      WithNothing(Decode(b), Repeat(REPLACEMENT, 0));
    }
  }

  // ---------------------------------------------------------------------------------------------
  // One call
  // ---------------------------------------------------------------------------------------------

  /** The buffer holds exactly the unfinished character `p`. */
  ghost predicate Holds(st: State, p: seq<Byte>) {
    && Consistent(st)
    && if |p| == 0 then st.lastNeed == 0
       else
         && Pending(p) && st.lastTotal == Announced(p[0])
         && st.lastNeed == st.lastTotal - |p| && st.lastChar[..|p|] == p
  }

  lemma {:induction false} TextStep(st: State, f: seq<Byte>)
    requires Consistent(st) && st.lastNeed == 0
    ensures Text(st, f).1 == Decode(Finished(f)) && Holds(Text(st, f).0, Unfinished(f))
  {
    UnfinishedPending(f);
    Whole(f);
  }

  lemma {:induction false} FilledIs(st: State, p: seq<Byte>, e: seq<Byte>, c: seq<Byte>)
    requires |p| > 0 && Holds(st, p) && st.lastNeed <= |e| && c == p + e[..st.lastNeed]
    ensures (st.lastChar[..|p|] + e[..st.lastNeed] + st.lastChar[st.lastTotal..])[..st.lastTotal] == c
  {
    Behind(c, st.lastChar[st.lastTotal..]);
  }

  /** A byte that announces a character and all the bytes it asks for leave nothing unfinished. */
  lemma {:induction false} CompleteClean(c: seq<Byte>)
    requires |c| > 0 && |c| == Announced(c[0]) && forall i :: 1 <= i < |c| ==> IsTail(c[i])
    ensures Clean(c)
  {
    forall i | 0 <= i < |c|
      ensures !Pending(c[i..])
    {
      assert c[i..][0] == c[i];
      AnnouncedBytes(c[i]);
    }
  }

  /** What is behind the awaited character is decoded from a fresh state. */
  lemma {:induction false} WriteCompletes(st: State, p: seq<Byte>, e: seq<Byte>, c: seq<Byte>) returns (next: State)
    requires |p| > 0 && Holds(st, p) && st.lastNeed <= |e| && c == p + e[..st.lastNeed]
    requires |e| > 0 && BrokenAt(st, e) == -1
    ensures Consistent(next) && next.lastNeed == 0
    ensures WriteChunk(st, e) == (Text(next, e[st.lastNeed..]).0, Decode(c) + Text(next, e[st.lastNeed..]).1)
  {
    next := State(0, st.lastTotal, st.lastChar[..|p|] + e[..st.lastNeed] + st.lastChar[st.lastTotal..]);
    FilledIs(st, p, e, c);
    if st.lastNeed == |e| {
      WithNothing(Decode(c), Decode(e[st.lastNeed..]));
    }
  }

  lemma {:induction false} AwaitedComplete(st: State, p: seq<Byte>, e: seq<Byte>)
    requires |p| > 0 && Holds(st, p) && |e| > 0 && BrokenAt(st, e) == -1 && st.lastNeed <= |e|
    ensures Clean(p + e[..st.lastNeed])
  {
    var c := p + e[..st.lastNeed];
    assert forall i :: 0 <= i < st.lastNeed ==> IsTail(e[i]);
    assert c[0] == p[0];
    CompleteClean(c);
  }

  /** The chunk completes the awaited character. */
  lemma {:induction false} CompletingStep(st: State, p: seq<Byte>, e: seq<Byte>)
    requires |p| > 0 && Holds(st, p) && |e| > 0 && BrokenAt(st, e) == -1 && st.lastNeed <= |e|
    ensures WriteChunk(st, e).1 == Decode(Finished(p + e)) && Holds(WriteChunk(st, e).0, Unfinished(p + e))
  {
    var c, r := p + e[..st.lastNeed], e[st.lastNeed..];
    var next := WriteCompletes(st, p, e, c);
    AwaitedComplete(st, p, e);
    Halves(e, st.lastNeed);
    Assoc(p, e[..st.lastNeed], r);
    UnfinishedSplits(c, r);
    TextStep(next, r);
  }

  /** The chunk breaks the awaited character off, of which only one byte had come. */
  lemma {:induction false} BreakingStep(st: State, p: seq<Byte>, e: seq<Byte>)
    requires |p| == 1 && Holds(st, p) && |e| > 0 && BrokenAt(st, e) == 0
    ensures WriteChunk(st, e).1 == Decode(Finished(p + e)) && Holds(WriteChunk(st, e).0, Unfinished(p + e))
  {
    Whole(e);
    PendingDecodes(p);
    assert Repeat(REPLACEMENT, 1) == [REPLACEMENT] + Repeat(REPLACEMENT, 0);
    UnfinishedSplits(p, e);
    TextStep(st.(lastNeed := 0), e);
  }

  /** The bytes `x` break an unfinished character off behind at least two of its bytes. */
  ghost predicate InnerStub(x: seq<Byte>) {
    exists i, n :: BrokenOff(x, i, n)
  }

  predicate BrokenOff(x: seq<Byte>, i: int, n: int) {
    0 <= i && 2 <= n && i + n < |x| && Pending(x[i..i + n]) && !IsTail(x[i + n])
  }

  /** The chunk goes on with the awaited character. */
  lemma {:induction false} GrowingStep(st: State, p: seq<Byte>, e: seq<Byte>)
    requires |p| > 0 && Holds(st, p) && |e| > 0 && BrokenAt(st, e) == -1 && |e| < st.lastNeed
    ensures WriteChunk(st, e).1 == Decode(Finished(p + e)) && Holds(WriteChunk(st, e).0, Unfinished(p + e))
  {
    assert forall i :: 0 <= i < |e| ==> IsTail(e[i]);
    assert Pending(p + e);
    UnfinishedIs([], p + e);
    WithNothing(p + e, []);
  }

  lemma {:induction false} BrokenIsStub(st: State, p: seq<Byte>, e: seq<Byte>)
    requires |p| > 0 && Holds(st, p) && |e| > 0 && BrokenAt(st, e) >= 0 && !(|p| == 1 && BrokenAt(st, e) == 0)
    ensures InnerStub(p + e)
  {
    var k, x := BrokenAt(st, e), p + e;
    assert forall i :: 0 <= i < k ==> IsTail(e[i]);
    assert x[0..|p| + k] == p + e[..k];
    assert BrokenOff(x, 0, |p| + k);
  }

  /** One call turns the pending bytes and the chunk into decoded text and pending bytes. */
  lemma {:induction false} WriteStep(st: State, p: seq<Byte>, e: seq<Byte>)
    requires Holds(st, p) && !InnerStub(p + e)
    ensures WriteChunk(st, e).1 == Decode(Finished(p + e)) && Holds(WriteChunk(st, e).0, Unfinished(p + e))
  {
    if |e| == 0 {
      WithNothing(p, e);
      HeldIsUnfinished(p);
    } else if |p| == 0 {
      WithNothing(e, p);
      TextStep(st, e);
    } else if BrokenAt(st, e) >= 0 {
      if !(|p| == 1 && BrokenAt(st, e) == 0) {
        BrokenIsStub(st, p, e);
      }
      BreakingStep(st, p, e);
    } else if st.lastNeed <= |e| {
      CompletingStep(st, p, e);
    } else {
      GrowingStep(st, p, e);
    }
  }

  lemma {:induction false} HeldIsUnfinished(p: seq<Byte>)
    requires |p| == 0 || Pending(p)
    ensures Unfinished(p) == p && Finished(p) == []
  {
    if |p| > 0 {
      UnfinishedIs([], p);
      WithNothing(p, []);
    }
  }

  // ---------------------------------------------------------------------------------------------
  // Whole streams
  // ---------------------------------------------------------------------------------------------

  lemma {:induction false} StubInside(a: seq<Byte>, m: seq<Byte>, b: seq<Byte>)
    requires InnerStub(m)
    ensures InnerStub(a + m + b)
  {
    var i, n :| BrokenOff(m, i, n);
    var x := a + m + b;
    assert x[|a| + i..|a| + i + n] == m[i..i + n];
    assert BrokenOff(x, |a| + i, n);
  }

  /** What the stream writes at the end for the bytes it still awaits. */
  function Ending(q: seq<Byte>): seq<Unit> {
    if |q| == 0 then [] else [REPLACEMENT]
  }

  /** Unless a character is broken off behind two of its bytes, the chunks do not show. */
  lemma {:induction false} StreamStep(st: State, p: seq<Byte>, chunks: seq<seq<Byte>>)
    requires Holds(st, p) && !InnerStub(p + Flatten(chunks))
    ensures var x := p + Flatten(chunks); Stream(st, chunks) == Decode(Finished(x)) + Ending(Unfinished(x))
    decreases |chunks|
  {
    if |chunks| == 0 {
      WithNothing(p, Flatten(chunks));
      HeldIsUnfinished(p);
      WithNothing(Ending(p), Decode([]));
    } else {
      var e, tail := chunks[0], Flatten(chunks[1..]);
      var f := p + e;
      var w, u := Finished(f), Unfinished(f);
      StreamSplit(p, e, tail, w, u);
      WriteStep(st, p, e);
      StreamStep(WriteChunk(st, e).0, u, chunks[1..]);
      Assoc(Decode(w), Decode(Finished(u + tail)), Ending(Unfinished(u + tail)));
    }
  }

  lemma {:induction false} StreamSplit(p: seq<Byte>, e: seq<Byte>, tail: seq<Byte>, w: seq<Byte>, u: seq<Byte>)
    requires w == Finished(p + e) && u == Unfinished(p + e) && !InnerStub(p + (e + tail))
    ensures !InnerStub(p + e) && !InnerStub(u + tail)
    ensures Unfinished(p + (e + tail)) == Unfinished(u + tail)
    ensures Decode(Finished(p + (e + tail))) == Decode(w) + Decode(Finished(u + tail))
  {
    var f := p + e;
    FinishedUnfinished(f);
    Assoc(p, e, tail);
    Assoc(w, u, tail);
    assert w + (u + tail) == w + (u + tail) + [];
    assert f + tail == [] + f + tail;
    if InnerStub(f) {
      StubInside([], f, tail);
    }
    if InnerStub(u + tail) {
      StubInside(w, u + tail, []);
    }
    if |u| > 0 {
      UnfinishedPending(f);
      AnnouncedBytes(u[0]);
      assert (u + tail)[0] == u[0];
    } else {
      UnfinishedClean(f);
      WithNothing(w, u);
    }
    UnfinishedSplits(w, u + tail);
  }

  /** A decoder fresh from its constructor; the buffer's bytes are arbitrary. */
  ghost predicate Fresh(st: State) {
    |st.lastChar| == 4 && st.lastNeed == 0 && st.lastTotal == 0
  }

  lemma {:induction false} FreshStream(st: State, chunks: seq<seq<Byte>>)
    requires Fresh(st) && !InnerStub(Flatten(chunks))
    ensures var b := Flatten(chunks); Stream(st, chunks) == Decode(Finished(b)) + Ending(Unfinished(b))
  {
    WithNothing(Flatten(chunks), []);
    StreamStep(st, [], chunks);
  }

  /**
   * Somewhere in `b` a character of three or four bytes is announced, and at least one but not all of the continuation
   * bytes follow before another byte or the end.
   */
  ghost predicate Stub(b: seq<Byte>) {
    exists i, n :: StubAt(b, i, n)
  }

  predicate StubAt(b: seq<Byte>, i: int, n: int) {
    0 <= i && 2 <= n && i + n <= |b| && Pending(b[i..i + n]) && (i + n == |b| || !IsTail(b[i + n]))
  }

  lemma {:induction false} UnfinishedStub(b: seq<Byte>)
    requires |Unfinished(b)| >= 2
    ensures Stub(b)
  {
    var i, n := |b| - |Unfinished(b)|, |Unfinished(b)|;
    UnfinishedPending(b);
    assert b[i..i + n] == Unfinished(b);
    assert StubAt(b, i, n);
  }

  lemma {:induction false} StubAtEnd(b: seq<Byte>, i: int, n: int)
    requires StubAt(b, i, n) && i + n == |b|
    ensures |Unfinished(b)| >= 2
  {
    assert b[i..i + n] == b[i..];
    UnfinishedIs(b[..i], b[i..]);
    Halves(b, i);
  }

  lemma {:induction false} StubCases(b: seq<Byte>)
    ensures Stub(b) <==> InnerStub(b) || |Unfinished(b)| >= 2
  {
    if |Unfinished(b)| >= 2 {
      UnfinishedStub(b);
    }
    if InnerStub(b) {
      var i, n :| BrokenOff(b, i, n);
      assert StubAt(b, i, n);
    }
    if Stub(b) {
      var i, n :| StubAt(b, i, n);
      if i + n == |b| {
        StubAtEnd(b, i, n);
      } else {
        assert BrokenOff(b, i, n);
      }
    }
  }

  /** On one chunk that breaks nothing off, the stream is shorter by what it saves at the end. */
  lemma {:induction false} EndingShorter(b: seq<Byte>)
    ensures Decode(Finished(b)) + Ending(Unfinished(b)) == Decode(b) <==> |Unfinished(b)| <= 1
  {
    WholeDecode(b);
    assert Repeat(REPLACEMENT, 1) == [REPLACEMENT] + Repeat(REPLACEMENT, 0);
  }

  lemma {:induction false} NoStubAgrees(st: State, chunks: seq<seq<Byte>>)
    requires Fresh(st) && !Stub(Flatten(chunks))
    ensures Stream(st, chunks) == Decode(Flatten(chunks))
  {
    StubCases(Flatten(chunks));
    FreshStream(st, chunks);
    EndingShorter(Flatten(chunks));
  }

  lemma {:induction false} StreamTwo(st: State, a: seq<Byte>, b: seq<Byte>)
    requires Consistent(st)
    ensures var (st1, t1) := WriteChunk(st, a);
            var (st2, t2) := WriteChunk(st1, b);
            Stream(st, [a, b]) == t1 + (t2 + End(st2))
    ensures Flatten([a, b]) == a + b
  {
    var chunks := [a, b];
    assert chunks[1..] == [b] && [b][1..] == [];
    var (st1, t1) := WriteChunk(st, a);
    assert Stream(st1, [b]) == WriteChunk(st1, b).1 + Stream(WriteChunk(st1, b).0, []);
    FlattenOne(b);
    assert Flatten(chunks) == a + Flatten([b]);
  }

  /** Cut right behind the bytes that are broken off, the stream comes out shorter. */
  lemma {:induction false} InnerStubDiffers(st: State, w: seq<Byte>, q: seq<Byte>, e: seq<Byte>)
    requires Fresh(st) && Pending(q) && |q| >= 2 && |e| > 0 && !IsTail(e[0])
    ensures Stream(st, [w + q, e]) != Decode(w + q + e)
  {
    var (st1, t1) := WriteChunk(st, w + q);
    StreamTwo(st, w + q, e);
    TextStep(st, w + q);
    UnfinishedIs(w, q);
    TextStep(st1.(lastNeed := 0), e);
    Whole(e);
    WholeLength(w, q, e);
  }

  lemma {:induction false} WholeLength(w: seq<Byte>, q: seq<Byte>, e: seq<Byte>)
    requires Pending(q) && |e| > 0 && !IsTail(e[0])
    ensures |Decode(w + q + e)| == |Decode(w)| + |q| + |Decode(Finished(e))| + |Unfinished(e)|
  {
    AnnouncedBytes(q[0]);
    DecodeSplits(w + q, e);
    DecodeSplits(w, q);
    PendingDecodes(q);
    WholeDecode(e);
  }

  lemma {:induction false} StubDiffers(st: State, b: seq<Byte>) returns (chunks: seq<seq<Byte>>)
    requires Fresh(st) && Stub(b)
    ensures Flatten(chunks) == b && Stream(st, chunks) != Decode(b)
  {
    StubCases(b);
    if InnerStub(b) {
      var i, n :| BrokenOff(b, i, n);
      var w, q, e := b[..i], b[i..i + n], b[i + n..];
      chunks := [w + q, e];
      assert w + q + e == b;
      StreamTwo(st, w + q, e);
      InnerStubDiffers(st, w, q, e);
    } else {
      chunks := [b];
      FlattenOne(b);
      FreshStream(st, chunks);
      EndingShorter(b);
    }
  }

  /**
   * For every byte string, well-formed or not: the stream gives the same string as decoding it at once, however it is
   * cut into chunks, if and only if no character is broken off behind at least two of its bytes.
   */
  lemma {:induction false} StreamingAgreesIff(st: State, b: seq<Byte>)
    requires Fresh(st)
    ensures (forall chunks :: Flatten(chunks) == b ==> Stream(st, chunks) == Decode(b)) <==> !Stub(b)
  {
    if Stub(b) {
      var chunks := StubDiffers(st, b);
    } else {
      forall chunks | Flatten(chunks) == b
        ensures Stream(st, chunks) == Decode(b)
      {
        NoStubAgrees(st, chunks);
      }
    }
  }

  // ---------------------------------------------------------------------------------------------
  // Well-formed and truncated text
  // ---------------------------------------------------------------------------------------------

  /** The beginning of a character, some bytes of which are still missing. */
  ghost predicate Partial(p: seq<Byte>) {
    |p| > 0 && exists q :: |q| > 0 && IsChar(p + q)
  }

  lemma {:induction false} PartialPending(p: seq<Byte>)
    requires Partial(p)
    ensures Pending(p)
  {
    var q :| |q| > 0 && IsChar(p + q);
    CharShape(p + q);
    assert forall i :: 0 <= i < |p| ==> (p + q)[i] == p[i];
  }

  /** Whole characters, and possibly an unfinished one behind them, break nothing off. */
  lemma {:induction false} NoInnerStub(w: seq<Byte>, q: seq<Byte>)
    requires WellFormed(w) && (|q| == 0 || Pending(q))
    ensures !InnerStub(w + q) && Unfinished(w + q) == q && Finished(w + q) == w
    decreases |w|
  {
    if |w| == 0 {
      WithNothing(q, w);
      HeldIsUnfinished(q);
      assert forall i, n :: !BrokenOff(q, i, n);
    } else {
      var m :| 1 <= m <= 4 && m <= |w| && IsChar(w[..m]) && WellFormed(w[m..]);
      var c, r := w[..m], w[m..] + q;
      NoInnerStub(w[m..], q);
      Halves(w, m);
      Assoc(c, w[m..], q);
      CharFirst(c, r);
    }
  }

  lemma {:induction false} CharFirst(c: seq<Byte>, r: seq<Byte>)
    requires IsChar(c) && !InnerStub(r)
    ensures !InnerStub(c + r) && Unfinished(c + r) == Unfinished(r) && Finished(c + r) == c + Finished(r)
  {
    CharShape(c);
    CharClean(c);
    UnfinishedSplits(c, r);
    var x := c + r;
    forall i, n | BrokenOff(x, i, n)
      ensures BrokenOff(r, i - |c|, n)
    {
      BrokenBehind(c, r, i, n);
    }
  }

  lemma {:induction false} BrokenBehind(c: seq<Byte>, r: seq<Byte>, i: int, n: int)
    requires IsChar(c) && BrokenOff(c + r, i, n)
    ensures BrokenOff(r, i - |c|, n)
  {
    var x := c + r;
    CharShape(c);
    AnnouncedBytes(x[i]);
    assert x[i..i + n][0] == x[i];
    assert i >= |c|;
    assert x[i..i + n] == r[i - |c|..(i - |c|) + n];
  }

  lemma {:induction false} CharClean(c: seq<Byte>)
    requires IsChar(c)
    ensures Clean(c)
  {
    CharShape(c);
    forall i | 0 <= i < |c|
      ensures !Pending(c[i..])
    {
      assert c[i..][0] == c[i];
      AnnouncedBytes(c[i]);
    }
  }

  /** However well-formed text is cut into chunks, the stream gives the same string as decoding it at once. */
  lemma {:induction false} StreamingAgrees(st: State, chunks: seq<seq<Byte>>)
    requires Fresh(st) && WellFormed(Flatten(chunks))
    ensures !Stub(Flatten(chunks)) && Stream(st, chunks) == Decode(Flatten(chunks))
  {
    var b := Flatten(chunks);
    NoInnerStub(b, []);
    WithNothing(b, []);
    StubCases(b);
    NoStubAgrees(st, chunks);
  }

  /**
   * Text that ends inside a character: the stream closes it with a single replacement character, so it agrees
   * with the whole-input decoder exactly when only one byte of that character has arrived.
   */
  lemma {:induction false} TruncatedStream(st: State, chunks: seq<seq<Byte>>, w: seq<Byte>, q: seq<Byte>)
    requires Fresh(st) && Flatten(chunks) == w + q && WellFormed(w) && Partial(q)
    ensures Stream(st, chunks) == Decode(w) + [REPLACEMENT]
    ensures Decode(Flatten(chunks)) == Decode(w) + Repeat(REPLACEMENT, |q|)
    ensures Stream(st, chunks) == Decode(Flatten(chunks)) <==> |q| == 1
  {
    PartialPending(q);
    NoInnerStub(w, q);
    FreshStream(st, chunks);
    WholeDecode(w + q);
    EndingShorter(w + q);
  }

  /** For example, two bytes of a character of three before another byte. */
  lemma {:induction false} BrokenOffDiffers(st: State, a: Byte, t: Byte, e: Byte)
    requires Fresh(st) && Announced(a) >= 3 && IsTail(t) && !IsTail(e)
    ensures Stream(st, [[a, t], [e]]) != Decode([a, t, e])
  {
    assert [] + [a, t] == [a, t] && [] + [a, t] + [e] == [a, t, e];
    InnerStubDiffers(st, [], [a, t], [e]);
  }

  // ---------------------------------------------------------------------------------------------
  // The decoder object
  // ---------------------------------------------------------------------------------------------

  function Patched(s: seq<Byte>, at: nat, src: seq<Byte>): seq<Byte>
    requires at + |src| <= |s|
  {
    s[..at] + src + s[at + |src|..]
  }

  lemma {:induction false} SliceFront<T>(s: seq<T>, from: nat, n: nat)
    requires from + n <= |s|
    ensures s[from..][..n] == s[from..from + n] && s[from..][n..] == s[from + n..] && s[from..|s|] == s[from..]
  {
  }

  class Decoder {
    var lastNeed: nat
    var lastTotal: nat
    const lastChar: array<Byte>

    ghost function Abs(): State
      reads this, lastChar
    {
      State(lastNeed, lastTotal, lastChar[..])
    }

    ghost predicate Valid()
      reads this, lastChar
    {
      Consistent(Abs())
    }

    constructor ()
      ensures Valid() && Fresh(Abs()) && fresh(lastChar)
    {
      lastNeed, lastTotal, lastChar := 0, 0, new Byte[4];
    }

    /** Copies `src` into the buffer from index `at` on. */
    method CopyIn(src: seq<Byte>, at: nat)
      requires lastChar.Length == 4 && at + |src| <= 4
      modifies lastChar
      ensures lastChar[..] == Patched(old(lastChar[..]), at, src)
    {
      for i := 0 to |src|
        invariant lastChar[..at] == old(lastChar[..at]) && lastChar[at..at + i] == src[..i]
        invariant lastChar[at + i..] == old(lastChar[at + i..])
      {
        lastChar[at + i] := src[i];
        assert lastChar[at + i + 1..] == old(lastChar[at + i + 1..]);
      }
      assert lastChar[..] == lastChar[..at] + lastChar[at..at + |src|] + lastChar[at + |src|..];
    }

    /** The head of the unfinished character at the end of `e` goes to the front of the buffer. */
    method KeepFrom(e: seq<Byte>, n: nat)
      requires lastChar.Length == 4 && n <= |e| <= n + 4
      modifies lastChar
      ensures lastChar[..] == e[n..] + old(lastChar[..])[|e| - n..]
    {
      CopyIn(e[n..], 0);
      WithNothing(e[n..], old(lastChar[..])[..0]);
    }

    method TextFrom(e: seq<Byte>, from: nat) returns (text: seq<Unit>)
      requires Valid() && lastNeed == 0 && from <= |e|
      modifies this, lastChar
      ensures Valid() && (Abs(), text) == Text(old(Abs()), e[from..])
    {
      var (need, total) := Incomplete(e[from..]);
      if need == 0 {
        text := DecodeSlice(e, from, |e|);
        SliceFront(e, from, 0);
      } else {
        SliceFront(e, from, |e| - from - (total - need));
        text := TextUpTo(e, from, |e| - (total - need), need, total);
      }
    }

    /** Decodes up to `n`, where a character begins of which `need` bytes are missing. */
    method TextUpTo(e: seq<Byte>, from: nat, n: nat, need: nat, total: nat) returns (text: seq<Unit>)
      requires Valid() && from <= n <= |e| && |e| - n == total - need && 0 < need < total <= 4
      modifies this, lastChar
      ensures Valid() && text == Decode(e[from..n])
      ensures Abs() == State(need, total, e[n..] + old(lastChar[..])[total - need..])
    {
      lastNeed, lastTotal := need, total;
      KeepFrom(e, n);
      text := DecodeSlice(e, from, n);
    }

    /** Decodes the next chunk. */
    method Write(e: seq<Byte>) returns (text: seq<Unit>)
      requires Valid()
      modifies this, lastChar
      ensures Valid() && (Abs(), text) == WriteChunk(old(Abs()), e)
    {
      if |e| == 0 {
        text := [];
      } else if lastNeed == 0 {
        assert e[0..] == e;
        text := TextFrom(e, 0);
      } else {
        text := Continue(e);
      }
    }

    /** The next chunk, when bytes of a character are awaited. */
    method Continue(e: seq<Byte>) returns (text: seq<Unit>)
      requires Valid() && |e| > 0 && lastNeed > 0
      modifies this, lastChar
      ensures Valid() && (Abs(), text) == WriteChunk(old(Abs()), e)
    {
      var k := BrokenAt(State(lastNeed, lastTotal, lastChar[..]), e);
      if k >= 0 {
        lastNeed := 0;
        text := TextFrom(e, k);
        text := [REPLACEMENT] + text;
      } else if lastNeed <= |e| {
        text := Complete(e);
      } else {
        CopyIn(e, lastTotal - lastNeed);
        lastNeed := lastNeed - |e|;
        text := [];
      }
    }

    /** The chunk completes the awaited character. */
    method Complete(e: seq<Byte>) returns (text: seq<Unit>)
      requires Valid() && 0 < lastNeed <= |e| && BrokenAt(Abs(), e) == -1
      modifies this, lastChar
      ensures Valid() && (Abs(), text) == WriteChunk(old(Abs()), e)
    {
      var skip := lastNeed;
      CopyIn(e[..skip], lastTotal - lastNeed);
      lastNeed := 0;
      text := DecodeSlice(lastChar[..], 0, lastTotal);
      SliceFront(lastChar[..], 0, lastTotal);
      if skip < |e| {
        var rest := TextFrom(e, skip);
        text := text + rest;
      }
    }

    /** Closes the stream. */
    method Close() returns (text: seq<Unit>)
      requires Valid()
      ensures text == End(Abs())
    {
      text := if lastNeed > 0 then [REPLACEMENT] else [];
    }
  }

  /** Feeds all chunks to a new decoder and closes it. */
  method DecodeChunks(chunks: seq<seq<Byte>>) returns (text: seq<Unit>)
    ensures !Stub(Flatten(chunks)) ==> text == Decode(Flatten(chunks))
    ensures WellFormed(Flatten(chunks)) ==> text == Decode(Flatten(chunks))
  {
    var d := new Decoder();
    ghost var start := d.Abs();
    text := [];
    for i := 0 to |chunks|
      invariant d.Valid() && fresh(d) && fresh(d.lastChar)
      invariant text + Stream(d.Abs(), chunks[i..]) == Stream(start, chunks)
    {
      ghost var st := d.Abs();
      var part := d.Write(chunks[i]);
      Tail(chunks, i);
      Assoc(text, part, Stream(d.Abs(), chunks[i + 1..]));
      text := text + part;
    }
    var last := d.Close();
    text := text + last;
    if !Stub(Flatten(chunks)) {
      NoStubAgrees(start, chunks);
    }
    if WellFormed(Flatten(chunks)) {
      StreamingAgrees(start, chunks);
    }
  }
}
