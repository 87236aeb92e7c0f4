/**
 * How a mocked database answer is filled in: every captured variable, taken in the order of a hash map, has its key
 * replaced by its value in every column of every record.
 */
module MockSubstitution {
  import opened Seqs

  type Text = seq<char>

  // ---------------------------------------------------------------------------------------------
  // Replacing one key
  // ---------------------------------------------------------------------------------------------

  /** Replaces every occurrence of `k`, from left to right, without looking at what was put in. */
  function ReplaceAll(s: Text, k: Text, v: Text): Text
    requires |k| > 0
    decreases |s|
  {
    if |s| == 0 then []
    else if k <= s then v + ReplaceAll(s[|k|..], k, v)
    else [s[0]] + ReplaceAll(s[1..], k, v)
  }

  /** However the text goes on, `k` does not begin where `s` begins. */
  predicate Apart(s: Text, k: Text) {
    !(s <= k) && !(k <= s)
  }

  /** However the text goes on, `k` begins nowhere inside `s`. */
  predicate Inert(s: Text, k: Text) {
    forall i :: 0 <= i < |s| ==> Apart(s[i..], k)
  }

  lemma {:induction false} InertTail(s: Text, k: Text)
    requires Inert(s, k) && |s| > 0
    ensures Inert(s[1..], k)
  {
    forall i | 0 <= i < |s[1..]|
      ensures Apart(s[1..][i..], k)
    {
      assert s[1..][i..] == s[i + 1..];
    }
  }

  lemma {:induction false} PrefixOfBoth(s: Text, rest: Text, k: Text)
    requires k <= s + rest
    ensures k <= s || s <= k
  {
    if |k| > |s| {
      assert s == (s + rest)[..|s|] == k[..|s|];
    }
  }

  lemma {:induction false} ReplacePasses(s: Text, rest: Text, k: Text, v: Text)
    requires |k| > 0 && Inert(s, k)
    ensures ReplaceAll(s + rest, k, v) == s + ReplaceAll(rest, k, v)
    decreases |s|
  {
    if |s| == 0 {
      assert s + rest == rest;
    } else {
      assert s[0..] == s;
      if k <= s + rest {
        PrefixOfBoth(s, rest, k);
      }
      InertTail(s, k);
      ReplacePasses(s[1..], rest, k, v);
      assert (s + rest)[1..] == s[1..] + rest;
    }
  }

  lemma {:induction false} ReplaceHits(rest: Text, k: Text, v: Text)
    requires |k| > 0
    ensures ReplaceAll(k + rest, k, v) == v + ReplaceAll(rest, k, v)
  {
    assert (k + rest)[|k|..] == rest;
  }

  lemma {:induction false} ReplaceByItself(s: Text, k: Text)
    requires |k| > 0
    ensures ReplaceAll(s, k, k) == s
    decreases |s|
  {
    if |s| > 0 {
      if k <= s {
        ReplaceByItself(s[|k|..], k);
      } else {
        ReplaceByItself(s[1..], k);
      }
    }
  }

  // ---------------------------------------------------------------------------------------------
  // Replacing all keys
  // ---------------------------------------------------------------------------------------------

  /** A column is made of literal text and of variables, written as their keys. */
  datatype Token = Literal(text: Text) | Variable(key: Text)

  function RenderToken(t: Token, env: map<Text, Text>): Text {
    match t
    case Literal(text) => text
    case Variable(key) => if key in env then env[key] else key
  }

  /** The column with every variable of `env` filled in at once. */
  function Render(ts: seq<Token>, env: map<Text, Text>): Text {
    if |ts| == 0 then [] else RenderToken(ts[0], env) + Render(ts[1..], env)
  }

  predicate ClearToken(t: Token, k: Text) {
    match t
    case Literal(text) => Inert(text, k)
    case Variable(key) => key == k || Inert(key, k)
  }

  /** `k` is found in the column only where the variable of that key stands. */
  predicate Clear(ts: seq<Token>, k: Text) {
    forall t :: t in ts ==> ClearToken(t, k)
  }

  /** Filling in one variable by replacement; the variables filled in before brought nothing that looks like it. */
  lemma {:induction false} ReplaceRender(ts: seq<Token>, env: map<Text, Text>, k: Text, v: Text)
    requires |k| > 0 && k !in env && Clear(ts, k)
    requires forall key :: key in env ==> Inert(env[key], k)
    ensures ReplaceAll(Render(ts, env), k, v) == Render(ts, env[k := v])
  {
    if |ts| > 0 {
      var rest := Render(ts[1..], env);
      ReplaceRender(ts[1..], env, k, v);
      if ts[0] == Variable(k) {
        ReplaceHits(rest, k, v);
      } else {
        assert ClearToken(ts[0], k);
        ReplacePasses(RenderToken(ts[0], env), rest, k, v);
      }
    }
  }

  lemma {:induction false} RenderItself(ts: seq<Token>, env: map<Text, Text>, k: Text)
    requires k !in env
    ensures Render(ts, env[k := k]) == Render(ts, env)
  {
    if |ts| > 0 {
      RenderItself(ts[1..], env, k);
    }
  }

  datatype Entry = Entry(key: Text, value: Text)

  /** The replacements of `writeSelectResultParameter`, in the order in which the map gives its entries. */
  function ReplaceEach(s: Text, entries: seq<Entry>): Text
    requires forall e :: e in entries ==> |e.key| > 0
    decreases |entries|
  {
    if |entries| == 0 then s
    else
      assert entries[0] in entries;
      ReplaceEach(ReplaceAll(s, entries[0].key, entries[0].value), entries[1..])
  }

  function MapOf(entries: seq<Entry>, env: map<Text, Text>): map<Text, Text> {
    if |entries| == 0 then env else MapOf(entries[1..], env[entries[0].key := entries[0].value])
  }

  /** The entries of one map: a key stands once. */
  ghost predicate OfMap(entries: seq<Entry>) {
    && (forall e :: e in entries ==> |e.key| > 0)
    && (forall i, j :: 0 <= i < j < |entries| ==> entries[i].key != entries[j].key)
  }

  /** A value that holds nothing like another key, or a key that stands for itself. */
  predicate Harmless(value: Text, e: Entry) {
    Inert(value, e.key) || e.value == e.key
  }

  ghost predicate AllHarmless(entries: seq<Entry>) {
    forall e, f :: e in entries && f in entries && e.key != f.key ==> Harmless(e.value, f)
  }

  lemma {:induction false} EachRenders(ts: seq<Token>, entries: seq<Entry>, env: map<Text, Text>)
    requires OfMap(entries) && AllHarmless(entries) && forall e :: e in entries ==> Clear(ts, e.key)
    requires forall e :: e in entries ==> e.key !in env && forall key :: key in env ==> Harmless(env[key], e)
    ensures ReplaceEach(Render(ts, env), entries) == Render(ts, MapOf(entries, env))
    decreases |entries|
  {
    if |entries| > 0 {
      var e, rest := entries[0], entries[1..];
      assert e in entries && forall f :: f in rest ==> f in entries && f.key != e.key;
      if e.value == e.key {
        ReplaceByItself(Render(ts, env), e.key);
        RenderItself(ts, env, e.key);
      } else {
        ReplaceRender(ts, env, e.key, e.value);
      }
      EachRenders(ts, rest, env[e.key := e.value]);
    }
  }

  /** Replacing one key after the other, in any order, is filling in all variables at once. */
  lemma {:induction false} SequentialIsSimultaneous(ts: seq<Token>, entries: seq<Entry>)
    requires OfMap(entries) && AllHarmless(entries) && forall e :: e in entries ==> Clear(ts, e.key)
    ensures ReplaceEach(Render(ts, map[]), entries) == Render(ts, MapOf(entries, map[]))
  {
    EachRenders(ts, entries, map[]);
  }

  lemma {:induction false} MapOfHas(entries: seq<Entry>, env: map<Text, Text>, key: Text)
    requires OfMap(entries)
    ensures key in MapOf(entries, env) <==> key in env || exists e :: e in entries && e.key == key
    ensures forall e :: e in entries ==> e.key in MapOf(entries, env) && MapOf(entries, env)[e.key] == e.value
    ensures key in env && (forall e :: e in entries ==> e.key != key) ==> MapOf(entries, env)[key] == env[key]
    decreases |entries|
  {
    if |entries| > 0 {
      var e := entries[0];
      MapOfHas(entries[1..], env[e.key := e.value], key);
      MapOfHas(entries[1..], env[e.key := e.value], e.key);
    }
  }

  /** The same entries in two orders make the same map. */
  lemma {:induction false} MapOfPermuted(one: seq<Entry>, two: seq<Entry>)
    requires OfMap(one) && OfMap(two) && forall e :: e in one <==> e in two
    ensures MapOf(one, map[]) == MapOf(two, map[])
  {
    forall key
      ensures key in MapOf(one, map[]) <==> key in MapOf(two, map[])
      ensures key in MapOf(one, map[]) ==> MapOf(one, map[])[key] == MapOf(two, map[])[key]
    {
      MapOfHas(one, map[], key);
      MapOfHas(two, map[], key);
    }
  }

  /** The answer does not depend on the order in which the hash map gives its entries. */
  lemma {:induction false} AnyOrder(ts: seq<Token>, one: seq<Entry>, two: seq<Entry>)
    requires OfMap(one) && OfMap(two) && forall e :: e in one <==> e in two
    requires AllHarmless(one) && forall e :: e in one ==> Clear(ts, e.key)
    ensures ReplaceEach(Render(ts, map[]), one) == ReplaceEach(Render(ts, map[]), two)
  {
    SequentialIsSimultaneous(ts, one);
    SequentialIsSimultaneous(ts, two);
    MapOfPermuted(one, two);
  }

  // ---------------------------------------------------------------------------------------------
  // Placeholders
  // ---------------------------------------------------------------------------------------------

  /** `isTemplateParameter`, for placeholders with a plain name; `signs` are those in use, out of `$` and `@`. */
  predicate IsPlaceholder(k: Text, signs: set<char>) {
    && |k| >= 3 && k[0] in signs && k[1] == '{' && k[|k| - 1] == '}' && '}' !in signs
    && forall i :: 1 <= i < |k| - 1 ==> k[i] !in signs && k[i] != '}'
  }

  predicate Free(s: Text, signs: set<char>) {
    forall i :: 0 <= i < |s| ==> s[i] !in signs
  }

  lemma {:induction false} FreeIsInert(s: Text, k: Text, signs: set<char>)
    requires IsPlaceholder(k, signs) && Free(s, signs)
    ensures Inert(s, k)
  {
    forall i | 0 <= i < |s|
      ensures Apart(s[i..], k)
    {
      assert s[i..][0] == s[i] != k[0];
    }
  }

  lemma {:induction false} PlaceholdersApart(k: Text, l: Text, signs: set<char>)
    requires IsPlaceholder(k, signs) && IsPlaceholder(l, signs) && k <= l
    ensures k == l
  {
    assert l[|k| - 1] == k[|k| - 1];
  }

  lemma {:induction false} PlaceholderIsInert(k: Text, l: Text, signs: set<char>)
    requires IsPlaceholder(k, signs) && IsPlaceholder(l, signs) && k != l
    ensures Inert(l, k)
  {
    forall i | 0 <= i < |l|
      ensures Apart(l[i..], k)
    {
      if i == 0 {
        assert l[0..] == l;
        if k <= l {
          PlaceholdersApart(k, l, signs);
        }
        if l <= k {
          PlaceholdersApart(l, k, signs);
        }
      } else {
        assert l[i..][0] == l[i] != k[0];
      }
    }
  }

  /** A column of literal text free of the signs, and of placeholders. */
  predicate WellFormed(ts: seq<Token>, signs: set<char>) {
    forall t :: t in ts ==> if t.Literal? then Free(t.text, signs) else IsPlaceholder(t.key, signs)
  }

  lemma {:induction false} WellFormedIsClear(ts: seq<Token>, k: Text, signs: set<char>)
    requires WellFormed(ts, signs) && IsPlaceholder(k, signs)
    ensures Clear(ts, k)
  {
    forall t | t in ts
      ensures ClearToken(t, k)
    {
      if t.Literal? {
        FreeIsInert(t.text, k, signs);
      } else if t.key != k {
        PlaceholderIsInert(k, t.key, signs);
      }
    }
  }

  /** For placeholders and captured values free of their signs, any order gives the simultaneous substitution. */
  lemma {:induction false} FreeValuesAnyOrder(ts: seq<Token>, entries: seq<Entry>, signs: set<char>)
    requires WellFormed(ts, signs) && OfMap(entries)
    requires forall e :: e in entries ==> IsPlaceholder(e.key, signs) && Free(e.value, signs)
    ensures ReplaceEach(Render(ts, map[]), entries) == Render(ts, MapOf(entries, map[]))
  {
    forall e | e in entries
      ensures Clear(ts, e.key)
    {
      WellFormedIsClear(ts, e.key, signs);
    }
    forall e, f | e in entries && f in entries && e.key != f.key
      ensures Harmless(e.value, f)
    {
      FreeIsInert(e.value, f.key, signs);
    }
    SequentialIsSimultaneous(ts, entries);
  }

  // ---------------------------------------------------------------------------------------------
  // Exactly when the order matters
  // ---------------------------------------------------------------------------------------------

  lemma {:induction false} ReplaceLength(s: Text, k: Text, v: Text)
    requires |k| > 0
    ensures |v| >= |k| ==> |ReplaceAll(s, k, v)| >= |s|
    ensures |v| <= |k| ==> |ReplaceAll(s, k, v)| <= |s|
    decreases |s|
  {
    if |s| > 0 {
      ReplaceLength(if k <= s then s[|k|..] else s[1..], k, v);
    }
  }

  /** Replacing a key that occurs by something else changes the text. */
  lemma {:induction false} ReplaceChanges(s: Text, at: nat, k: Text, v: Text)
    requires |k| > 0 && v != k && at <= |s| && k <= s[at..]
    ensures ReplaceAll(s, k, v) != s
    decreases |s|
  {
    if k <= s {
      ReplaceLength(s[|k|..], k, v);
      if |v| == |k| {
        assert ReplaceAll(s, k, v)[..|k|] == v && s[..|k|] == k;
      }
    } else {
      assert at > 0 && s[1..][at - 1..] == s[at..];
      ReplaceChanges(s[1..], at - 1, k, v);
      assert ReplaceAll(s, k, v)[1..] == ReplaceAll(s[1..], k, v);
    }
  }

  /** What makes `b.key` out of the part of `a.value` from `i` on. */
  function Completion(a: Entry, b: Entry, i: nat): Text
    requires i < |a.value| && !Apart(a.value[i..], b.key)
  {
    if b.key <= a.value[i..] then [] else b.key[|a.value| - i..]
  }

  lemma {:induction false} CompletionFree(a: Entry, b: Entry, i: nat, signs: set<char>)
    requires i < |a.value| && !Apart(a.value[i..], b.key) && IsPlaceholder(b.key, signs)
    ensures Free(Completion(a, b, i), signs) && b.key <= (a.value + Completion(a, b, i))[i..]
  {
    assert (a.value + Completion(a, b, i))[i..] == a.value[i..] + Completion(a, b, i);
  }

  /** An order in which the map may give its entries. */
  ghost predicate OrderOf(order: seq<Entry>, entries: seq<Entry>) {
    OfMap(order) && forall e :: e in order <==> e in entries
  }

  /** All columns come out the same in all orders. */
  ghost predicate OrdersAgree(entries: seq<Entry>, signs: set<char>) {
    forall p, q, ts :: OrderOf(p, entries) && OrderOf(q, entries) && WellFormed(ts, signs) ==>
      ReplaceEach(Render(ts, map[]), p) == ReplaceEach(Render(ts, map[]), q)
  }

  lemma {:induction false} ReplaceBoth(s: Text, a: Entry, b: Entry)
    requires |a.key| > 0 && |b.key| > 0
    ensures ReplaceEach(s, [a, b]) == ReplaceAll(ReplaceAll(s, a.key, a.value), b.key, b.value)
  {
    var one := ReplaceAll(s, a.key, a.value);
    assert [a, b][1..] == [b];
    assert ReplaceEach(s, [a, b]) == ReplaceEach(one, [b]);
    assert [b][1..] == [];
    assert ReplaceEach(one, [b]) == ReplaceEach(ReplaceAll(one, b.key, b.value), []);
  }

  lemma {:induction false} FirstBefore(a: Entry, b: Entry, rest: Text)
    requires |a.key| > 0 && |b.key| > 0 && Inert(rest, a.key)
    ensures ReplaceEach(a.key + rest, [a, b]) == ReplaceAll(a.value + rest, b.key, b.value)
  {
    ReplaceHits(rest, a.key, a.value);
    ReplaceWhole(rest, a.key, a.value);
    ReplaceBoth(a.key + rest, a, b);
  }

  lemma {:induction false} SecondBefore(a: Entry, b: Entry, rest: Text)
    requires |a.key| > 0 && |b.key| > 0 && Inert(rest, a.key) && Inert(rest, b.key) && Inert(a.key, b.key)
    ensures ReplaceEach(a.key + rest, [b, a]) == a.value + rest
  {
    ReplacePasses(a.key, rest, b.key, b.value);
    ReplaceWhole(rest, b.key, b.value);
    ReplaceHits(rest, a.key, a.value);
    ReplaceWhole(rest, a.key, a.value);
    ReplaceBoth(a.key + rest, b, a);
  }

  lemma {:induction false} ReplaceEachConcat(s: Text, first: seq<Entry>, last: seq<Entry>)
    requires (forall e :: e in first ==> |e.key| > 0) && forall e :: e in last ==> |e.key| > 0
    ensures (forall e :: e in first + last ==> |e.key| > 0)
    ensures ReplaceEach(s, first + last) == ReplaceEach(ReplaceEach(s, first), last)
    decreases |first|
  {
    if |first| == 0 {
      WithNothing(last, first);
    } else {
      assert first[0] in first;
      assert (first + last)[1..] == first[1..] + last;
      ReplaceEachConcat(ReplaceAll(s, first[0].key, first[0].value), first[1..], last);
    }
  }

  /** Keys that begin nowhere in the text change nothing. */
  lemma {:induction false} ReplaceEachInert(s: Text, entries: seq<Entry>)
    requires forall e :: e in entries ==> |e.key| > 0 && Inert(s, e.key)
    ensures ReplaceEach(s, entries) == s
    decreases |entries|
  {
    if |entries| > 0 {
      assert entries[0] in entries;
      ReplaceWhole(s, entries[0].key, entries[0].value);
      ReplaceEachInert(s, entries[1..]);
    }
  }

  lemma {:induction false} InertConcat(s: Text, t: Text, k: Text)
    requires Inert(s, k) && Inert(t, k)
    ensures Inert(s + t, k)
  {
    forall i | 0 <= i < |s + t|
      ensures Apart((s + t)[i..], k)
    {
      if i < |s| {
        assert (s + t)[i..] == s[i..] + t;
        assert Apart(s[i..], k);
        LongerApart(s[i..], t, k);
      } else {
        assert (s + t)[i..] == t[i - |s|..];
      }
    }
  }

  lemma {:induction false} LongerApart(s: Text, t: Text, k: Text)
    requires Apart(s, k)
    ensures Apart(s + t, k)
  {
    if k <= s + t {
      PrefixOfBoth(s, t, k);
    }
    if s + t <= k {
      PrefixOfLonger(s, t, k);
    }
  }

  lemma {:induction false} PrefixOfLonger(s: Text, t: Text, k: Text)
    requires s + t <= k
    ensures s <= k
  {
    assert s == (s + t)[..|s|] == k[..|s|];
  }

  ghost function Others(entries: seq<Entry>, a: Entry, b: Entry): seq<Entry> {
    Keep(entries, Elems(entries) - {a, b})
  }

  /** The other entries first, then these two. */
  lemma {:induction false} OthersFirst(entries: seq<Entry>, a: Entry, b: Entry)
    requires OfMap(entries) && a in entries && b in entries && a.key != b.key
    ensures OrderOf(Others(entries, a, b) + [a, b], entries)
  {
    var others := Others(entries, a, b);
    var p := others + [a, b];
    KeepDistinct(entries, Elems(entries) - {a, b});
    assert forall e :: e in p <==> e in others || e == a || e == b;
    assert forall e, f :: e in entries && f in entries && e.key == f.key ==> e == f;
    forall i, j | 0 <= i < j < |p|
      ensures p[i].key != p[j].key
    {
      assert p[i] in p && p[j] in p;
      assert j < |others| ==> others[i] != others[j];
      assert i < |others| ==> others[i] in others;
    }
  }

  /** The value of `a` and the literal text behind it spell the key of `b`: two orders of the map differ. */
  lemma {:induction false} OrdersDiffer(entries: seq<Entry>, a: Entry, b: Entry, i: nat, signs: set<char>)
    requires OfMap(entries) && forall e :: e in entries ==> IsPlaceholder(e.key, signs)
    requires a in entries && b in entries && a.key != b.key && b.value != b.key
    requires i < |a.value| && !Apart(a.value[i..], b.key)
    ensures !OrdersAgree(entries, signs)
  {
    var rest := Completion(a, b, i);
    var p, q := DifferingOrders(entries, a, b, i, signs);
    CompletionFree(a, b, i, signs);
    var ts := [Variable(a.key), Literal(rest)];
    assert WellFormed(ts, signs);
    RenderTwo(a.key, rest);
  }

  lemma {:induction false} DifferingOrders(entries: seq<Entry>, a: Entry, b: Entry, i: nat, signs: set<char>)
    returns (p: seq<Entry>, q: seq<Entry>)
    requires OfMap(entries) && forall e :: e in entries ==> IsPlaceholder(e.key, signs)
    requires a in entries && b in entries && a.key != b.key && b.value != b.key
    requires i < |a.value| && !Apart(a.value[i..], b.key)
    ensures OrderOf(p, entries) && OrderOf(q, entries)
    ensures ReplaceEach(a.key + Completion(a, b, i), p) != ReplaceEach(a.key + Completion(a, b, i), q)
  {
    var rest, others := Completion(a, b, i), Others(entries, a, b);
    p, q := others + [a, b], others + [b, a];
    OthersFirst(entries, a, b);
    OthersFirst(entries, b, a);
    assert {a, b} == {b, a};
    CompletionFree(a, b, i, signs);
    OthersPass(entries, a, b, rest, [a, b], signs);
    OthersPass(entries, a, b, rest, [b, a], signs);
    TwoDiffer(a, b, i, signs);
  }

  lemma {:induction false} OthersPass(
    entries: seq<Entry>, a: Entry, b: Entry, rest: Text, last: seq<Entry>, signs: set<char>)
    requires OfMap(entries) && (forall e :: e in entries ==> IsPlaceholder(e.key, signs)) && a in entries
    requires Free(rest, signs) && forall e :: e in last ==> |e.key| > 0
    ensures forall e :: e in Others(entries, a, b) + last ==> |e.key| > 0
    ensures ReplaceEach(a.key + rest, Others(entries, a, b) + last) == ReplaceEach(a.key + rest, last)
  {
    forall e | e in Others(entries, a, b)
      ensures |e.key| > 0 && Inert(a.key + rest, e.key)
    {
      PlaceholderIsInert(e.key, a.key, signs);
      FreeIsInert(rest, e.key, signs);
      InertConcat(a.key, rest, e.key);
    }
    ReplaceEachInert(a.key + rest, Others(entries, a, b));
    ReplaceEachConcat(a.key + rest, Others(entries, a, b), last);
  }

  lemma {:induction false} TwoDiffer(a: Entry, b: Entry, i: nat, signs: set<char>)
    requires IsPlaceholder(a.key, signs) && IsPlaceholder(b.key, signs) && a.key != b.key && b.value != b.key
    requires i < |a.value| && !Apart(a.value[i..], b.key)
    ensures var s := a.key + Completion(a, b, i); ReplaceEach(s, [a, b]) != ReplaceEach(s, [b, a])
  {
    var rest := Completion(a, b, i);
    CompletionFree(a, b, i, signs);
    FreeIsInert(rest, a.key, signs);
    FreeIsInert(rest, b.key, signs);
    PlaceholderIsInert(b.key, a.key, signs);
    FirstBefore(a, b, rest);
    SecondBefore(a, b, rest);
    ReplaceChanges(a.value + rest, i, b.key, b.value);
  }

  lemma {:induction false} RenderTwo(key: Text, rest: Text)
    ensures Render([Variable(key), Literal(rest)], map[]) == key + rest
  {
    var ts := [Variable(key), Literal(rest)];
    assert ts[1..] == [Literal(rest)];
    assert [Literal(rest)][1..] == [];
    assert Render([Literal(rest)], map[]) == rest + Render([], map[]);
  }

  lemma {:induction false} ReplaceWhole(s: Text, k: Text, v: Text)
    requires |k| > 0 && Inert(s, k)
    ensures ReplaceAll(s, k, v) == s
  {
    ReplacePasses(s, [], k, v);
    assert s + [] == s;
  }

  lemma {:induction false} HarmlessAgree(entries: seq<Entry>, signs: set<char>)
    requires OfMap(entries) && (forall e :: e in entries ==> IsPlaceholder(e.key, signs)) && AllHarmless(entries)
    ensures OrdersAgree(entries, signs)
  {
    forall p: seq<Entry>, q: seq<Entry>, ts | OrderOf(p, entries) && OrderOf(q, entries) && WellFormed(ts, signs)
      ensures ReplaceEach(Render(ts, map[]), p) == ReplaceEach(Render(ts, map[]), q)
    {
      forall e | e in p
        ensures Clear(ts, e.key)
      {
        WellFormedIsClear(ts, e.key, signs);
      }
      AnyOrder(ts, p, q);
    }
  }

  /**
   * All columns come out the same in all orders of the map if and only if no value holds, or ends in the beginning of,
   * another key (or that key stands for itself).
   */
  lemma {:induction false} OrderFreeIff(entries: seq<Entry>, signs: set<char>)
    requires OfMap(entries) && forall e :: e in entries ==> IsPlaceholder(e.key, signs)
    ensures OrdersAgree(entries, signs) <==> AllHarmless(entries)
  {
    if AllHarmless(entries) {
      HarmlessAgree(entries, signs);
    } else {
      var a, b :| a in entries && b in entries && a.key != b.key && !Harmless(a.value, b);
      var i :| 0 <= i < |a.value| && !Apart(a.value[i..], b.key);
      OrdersDiffer(entries, a, b, i, signs);
    }
  }

  /** For example, a captured value that spells another key: "${a}" becomes "x" in one order, "${b}" in the other. */
  lemma {:induction false} CapturedPlaceholder()
    ensures !OrdersAgree([Entry("${a}", "${b}"), Entry("${b}", "x")], {'$'})
  {
    var a, b := Entry("${a}", "${b}"), Entry("${b}", "x");
    assert a.value[0..] == b.key;
    OrdersDiffer([a, b], a, b, 0, {'$'});
  }

  // ---------------------------------------------------------------------------------------------
  // The records
  // ---------------------------------------------------------------------------------------------

  method ReplaceInColumn(column: Text, entries: seq<Entry>) returns (subItem: Text)
    requires forall e :: e in entries ==> |e.key| > 0
    ensures subItem == ReplaceEach(column, entries)
  {
    subItem := column;
    for i := 0 to |entries|
      invariant ReplaceEach(subItem, entries[i..]) == ReplaceEach(column, entries)
    {
      assert entries[i..][1..] == entries[i + 1..] && entries[i] in entries;
      subItem := ReplaceAll(subItem, entries[i].key, entries[i].value);
    }
  }

  method WriteRecord(item: array<Text>, entries: seq<Entry>)
    requires forall e :: e in entries ==> |e.key| > 0
    modifies item
    ensures forall i :: 0 <= i < item.Length ==> item[i] == ReplaceEach(old(item[i]), entries)
  {
    for i := 0 to item.Length
      invariant forall j :: 0 <= j < i ==> item[j] == ReplaceEach(old(item[j]), entries)
      invariant forall j :: i <= j < item.Length ==> item[j] == old(item[j])
    {
      item[i] := ReplaceInColumn(item[i], entries);
    }
  }

  /** Every column of every record is replaced in place. */
  method WriteSelectResultParameter(records: seq<array<Text>>, entries: seq<Entry>)
    requires forall e :: e in entries ==> |e.key| > 0
    requires forall i, j :: 0 <= i < j < |records| ==> records[i] != records[j]
    modifies records
    ensures forall r, i :: 0 <= r < |records| && 0 <= i < records[r].Length ==>
              records[r][i] == ReplaceEach(old(records[r][i]), entries)
  {
    for n := 0 to |records|
      invariant forall r, i :: 0 <= r < n && 0 <= i < records[r].Length ==>
                  records[r][i] == ReplaceEach(old(records[r][i]), entries)
      invariant forall r, i :: n <= r < |records| && 0 <= i < records[r].Length ==>
                  records[r][i] == old(records[r][i])
    {
      WriteRecord(records[n], entries);
    }
  }
}
