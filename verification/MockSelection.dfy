/**
 * How a mock is chosen for a database call: every mock is scored against the call and the best score wins. Comparing
 * without case, cutting a query along a template and testing a regular expression are parameters.
 */
module MockSelection {
  import opened Options

  type Text = seq<char>

  datatype Rules = Rules(
    same: (Text, Text) -> bool,                // `equalsIgnoreCase`
    parse: Text -> seq<Text>,                  // a template, cut into its sections
    cut: (seq<Text>, Text) -> seq<Text>,       // a query, cut along these sections
    regex: (Text, Option<Text>) -> bool)       // a regular expression and what it is tested on

  /** A recorded request or the call to simulate; a parameter may be null. */
  datatype Request = Request(query: Text, params: seq<Option<Text>>)

  datatype Mock = Mock(index: int, request: Request)

  const EXACT := 10000
  const TEMPLATE := 1000

  predicate IsVariable(s: Text) {
    "${" <= s && |s| > 0 && s[|s| - 1] == '}'
  }

  predicate IsRegex(s: Text) {
    "@{" <= s && |s| > 0 && s[|s| - 1] == '}'
  }

  /** The expression that is tested for `@{...}`: it ends three characters before the end. */
  function Expression(s: Text): Text {
    if |s| >= 5 then s[2..|s| - 3] else []
  }

  predicate SameOrNull(rules: Rules, possible: Text, actual: Option<Text>) {
    actual.Some? && rules.same(possible, actual.value)
  }

  // ---------------------------------------------------------------------------------------------
  // Scores
  // ---------------------------------------------------------------------------------------------

  function ParamScore(rules: Rules, possible: Option<Text>, actual: Option<Text>): (n: nat)
    ensures n <= 3
  {
    match possible
    case None => if actual.None? then 3 else 0
    case Some(p) =>
      if SameOrNull(rules, p, actual) then 3
      else if IsVariable(p) then 1
      else if IsRegex(p) && rules.regex(Expression(p), actual) then 2
      else 0
  }

  function ParamsScore(rules: Rules, possible: seq<Option<Text>>, actual: seq<Option<Text>>): (n: nat)
    requires |possible| == |actual|
    ensures n <= 3 * |possible|
  {
    if |possible| == 0 then 0
    else ParamScore(rules, possible[0], actual[0]) + ParamsScore(rules, possible[1..], actual[1..])
  }

  predicate SectionFits(rules: Rules, possible: Text, actual: Text) {
    || rules.same(possible, actual) || IsVariable(possible)
    || (IsRegex(possible) && rules.regex(Expression(possible), Some(actual)))
  }

  /** The call's query is cut into as many sections as the template has, and each fits. */
  ghost predicate TemplateFits(rules: Rules, template: Text, query: Text) {
    var possible, actual := rules.parse(template), rules.cut(rules.parse(template), query);
    |possible| == |actual| && forall i :: 0 <= i < |possible| ==> SectionFits(rules, possible[i], actual[i])
  }

  /** A mock takes part when it has as many parameters as the call and its query matches. */
  ghost predicate Matches(rules: Rules, mock: Request, call: Request) {
    && |mock.params| == |call.params|
    && (rules.same(mock.query, call.query) || TemplateFits(rules, mock.query, call.query))
  }

  ghost function Score(rules: Rules, mock: Request, call: Request): (n: nat)
    requires Matches(rules, mock, call)
  {
    (if rules.same(mock.query, call.query) then EXACT else TEMPLATE) + ParamsScore(rules, mock.params, call.params)
  }

  // ---------------------------------------------------------------------------------------------
  // The choice
  // ---------------------------------------------------------------------------------------------

  class Ref<T> {
    var value: T

    constructor (value: T)
      ensures this.value == value
    {
      this.value := value;
    }
  }

  method VerifyQuery(rules: Rules, call: Request, mock: Request, matched: Ref<int>) returns (ok: bool)
    modifies matched
    ensures ok <==> rules.same(mock.query, call.query) || TemplateFits(rules, mock.query, call.query)
    ensures matched.value - old(matched.value)
         == if !ok then 0 else if rules.same(mock.query, call.query) then EXACT else TEMPLATE
  {
    if rules.same(mock.query, call.query) {
      matched.value := EXACT + matched.value;
      return true;
    }
    var possible := rules.parse(mock.query);
    var actual := rules.cut(possible, call.query);
    if |possible| != |actual| {
      return false;
    }
    for i := 0 to |possible|
      invariant forall j :: 0 <= j < i ==> SectionFits(rules, possible[j], actual[j])
    {
      if !SectionFits(rules, possible[i], actual[i]) {
        return false;
      }
    }
    matched.value := TEMPLATE + matched.value;
    return true;
  }

  method MatchParameters(rules: Rules, possible: seq<Option<Text>>, actual: seq<Option<Text>>, matched: Ref<int>)
    requires |possible| == |actual|
    modifies matched
    ensures matched.value == old(matched.value) + ParamsScore(rules, possible, actual)
  {
    for i := 0 to |possible|
      invariant matched.value + ParamsScore(rules, possible[i..], actual[i..])
             == old(matched.value) + ParamsScore(rules, possible, actual)
    {
      assert possible[i..][1..] == possible[i + 1..] && actual[i..][1..] == actual[i + 1..];
      matched.value := ParamScore(rules, possible[i], actual[i]) + matched.value;
    }
  }

  /** Scores one mock and notes it if it beats the best so far. */
  method CheckMatching(rules: Rules, mock: Mock, call: Request, best: Ref<int>, found: Ref<int>)
    requires best != found
    modifies best, found
    ensures if Matches(rules, mock.request, call) && Score(rules, mock.request, call) > old(best.value)
            then best.value == Score(rules, mock.request, call) && found.value == mock.index
            else best.value == old(best.value) && found.value == old(found.value)
  {
    var matched: Ref<int> := new Ref(0);
    if |mock.request.params| != |call.params| {
      return;
    }
    var ok := VerifyQuery(rules, call, mock.request, matched);
    if !ok {
      return;
    }
    MatchParameters(rules, mock.request.params, call.params, matched);
    if matched.value > best.value {
      best.value := matched.value;
      found.value := mock.index;
    }
  }

  /** `mocks[i]` is the first of those with the greatest score. */
  ghost predicate EarliestBest(rules: Rules, mocks: seq<Mock>, call: Request, i: int) {
    && 0 <= i < |mocks| && Matches(rules, mocks[i].request, call)
    && (forall j :: 0 <= j < |mocks| && Matches(rules, mocks[j].request, call) ==>
          && Score(rules, mocks[j].request, call) <= Score(rules, mocks[i].request, call)
          && (j < i ==> Score(rules, mocks[j].request, call) < Score(rules, mocks[i].request, call)))
  }

  /** The mocks are checked one after the other; -1 is left when none takes part. */
  method Select(rules: Rules, mocks: seq<Mock>, call: Request) returns (index: int)
    ensures if forall j :: 0 <= j < |mocks| ==> !Matches(rules, mocks[j].request, call) then index == -1
            else exists i :: EarliestBest(rules, mocks, call, i) && index == mocks[i].index
  {
    var best: Ref<int> := new Ref(0);
    var found: Ref<int> := new Ref(-1);
    ghost var at := -1;
    for n := 0 to |mocks|
      invariant -1 <= at < n
      invariant if at < 0
                then best.value == 0 && found.value == -1
                     && forall j :: 0 <= j < n ==> !Matches(rules, mocks[j].request, call)
                else && EarliestBest(rules, mocks[..n], call, at)
                     && best.value == Score(rules, mocks[at].request, call) && found.value == mocks[at].index
    {
      if Matches(rules, mocks[n].request, call) && Score(rules, mocks[n].request, call) > best.value {
        at := n;
      }
      CheckMatching(rules, mocks[n], call, best, found);
    }
    assert mocks[..|mocks|] == mocks;
    assert at >= 0 ==> EarliestBest(rules, mocks, call, at);
    index := found.value;
  }

  /**
   * What `handle` goes on with: the mock of the index found, but only if that index is above 0, so a best mock numbered
   * 0 or less answers nothing although another one might have matched. Indices are unique, or loading has failed.
   */
  method FindMock(rules: Rules, mocks: seq<Mock>, call: Request) returns (r: Option<Mock>)
    requires forall i, j :: 0 <= i < j < |mocks| ==> mocks[i].index != mocks[j].index
    ensures r.Some? <==> exists i :: EarliestBest(rules, mocks, call, i) && mocks[i].index > 0
    ensures r.Some? ==> exists i :: EarliestBest(rules, mocks, call, i) && r.value == mocks[i]
  {
    var index := Select(rules, mocks, call);
    r := None;
    if index > 0 {
      var at := FirstNumbered(mocks, index);
      if at < |mocks| {
        r := Some(mocks[at]);
      }
    }
    BestUnique(rules, mocks, call);
  }

  method FirstNumbered(mocks: seq<Mock>, index: int) returns (at: nat)
    ensures at <= |mocks| && (at < |mocks| ==> mocks[at].index == index)
    ensures forall j :: 0 <= j < at ==> mocks[j].index != index
  {
    at := 0;
    while at < |mocks| && mocks[at].index != index
      invariant at <= |mocks|
      invariant forall j :: 0 <= j < at ==> mocks[j].index != index
    {
      at := at + 1;
    }
  }

  lemma {:induction false} BestUnique(rules: Rules, mocks: seq<Mock>, call: Request)
    ensures forall i, j :: EarliestBest(rules, mocks, call, i) && EarliestBest(rules, mocks, call, j) ==> i == j
  {
  }

  /** For example, of two mocks for the very call the one numbered 0 is the best, so the call is not answered at all. */
  lemma {:induction false} NumberedZeroIsIgnored(rules: Rules, call: Request)
    requires rules.same(call.query, call.query)
    ensures var mocks := [Mock(0, call), Mock(1, call)];
            && EarliestBest(rules, mocks, call, 0) && Matches(rules, mocks[1].request, call)
            && !exists i :: EarliestBest(rules, mocks, call, i) && mocks[i].index > 0
  {
    BestUnique(rules, [Mock(0, call), Mock(1, call)], call);
  }

  // ---------------------------------------------------------------------------------------------
  // How close a parameter is
  // ---------------------------------------------------------------------------------------------

  /** The parameter of the mock is that of the call, or both are null. */
  predicate Equal(rules: Rules, possible: Option<Text>, actual: Option<Text>) {
    match possible
    case None => actual == None
    case Some(p) => actual.Some? && rules.same(p, actual.value)
  }

  /** `s` is the sign, an opening brace, some text and a closing brace. */
  predicate Braced(s: Text, sign: char) {
    |s| >= 3 && s[0] == sign && s[1] == '{' && s[|s| - 1] == '}'
  }

  /** The parameter of the mock is `@{...}` and the one of the call passes the test. */
  predicate PassesTest(rules: Rules, possible: Option<Text>, actual: Option<Text>) {
    possible.Some? && Braced(possible.value, '@') && rules.regex(Expression(possible.value), actual)
  }

  /** The parameter of the mock is `${...}`. */
  predicate Anything(possible: Option<Text>) {
    possible.Some? && Braced(possible.value, '$')
  }

  /** At one place, the first mock is closer to the call than the second. */
  predicate Closer(rules: Rules, one: Option<Text>, two: Option<Text>, actual: Option<Text>) {
    if Equal(rules, one, actual) then !Equal(rules, two, actual)
    else if PassesTest(rules, one, actual) then !Equal(rules, two, actual) && !PassesTest(rules, two, actual)
    else Anything(one) && !Equal(rules, two, actual) && !PassesTest(rules, two, actual) && !Anything(two)
  }

  /** A section of the template fits if it is the section of the query, `${...}`, or `@{...}` that matches it. */
  lemma {:induction false} SectionsByKind(rules: Rules, possible: Text, actual: Text)
    ensures SectionFits(rules, possible, actual) <==>
            || rules.same(possible, actual) || Braced(possible, '$')
            || (Braced(possible, '@') && rules.regex(Expression(possible), Some(actual)))
  {
  }

  /** What a parameter is worth. */
  lemma {:induction false} PointsByKind(rules: Rules, possible: Option<Text>, actual: Option<Text>)
    ensures ParamScore(rules, possible, actual) ==
            if Equal(rules, possible, actual) then 3
            else if PassesTest(rules, possible, actual) then 2
            else if Anything(possible) then 1
            else 0
  {
  }

  lemma {:induction false} ParamsDiffer(
    rules: Rules, one: seq<Option<Text>>, two: seq<Option<Text>>, actual: seq<Option<Text>>, k: nat)
    requires k < |one| == |two| == |actual| && forall i :: 0 <= i < |one| && i != k ==> one[i] == two[i]
    ensures ParamsScore(rules, one, actual) - ParamsScore(rules, two, actual)
         == ParamScore(rules, one[k], actual[k]) - ParamScore(rules, two[k], actual[k])
  {
    if k == 0 {
      assert one[1..] == two[1..];
    } else {
      ParamsDiffer(rules, one[1..], two[1..], actual[1..], k - 1);
    }
  }

  /** Of two mocks that differ in one parameter, the one that is closer there has the greater score, and only it. */
  lemma {:induction false} CloserScoresMore(rules: Rules, one: Request, two: Request, call: Request, k: nat)
    requires Matches(rules, one, call) && Matches(rules, two, call) && one.query == two.query && k < |call.params|
    requires forall i :: 0 <= i < |call.params| && i != k ==> one.params[i] == two.params[i]
    ensures Closer(rules, one.params[k], two.params[k], call.params[k]) <==>
            Score(rules, one, call) > Score(rules, two, call)
  {
    ParamsDiffer(rules, one.params, two.params, call.params, k);
    PointsByKind(rules, one.params[k], call.params[k]);
    PointsByKind(rules, two.params[k], call.params[k]);
  }

  /** So a mock is never chosen if another one differs from it by a closer parameter. */
  lemma {:induction false} CloserIsPreferred(rules: Rules, mocks: seq<Mock>, call: Request, i: int, j: int, k: nat)
    requires EarliestBest(rules, mocks, call, i) && 0 <= j < |mocks| && k < |call.params|
    requires Matches(rules, mocks[j].request, call) && mocks[j].request.query == mocks[i].request.query
    requires forall x :: 0 <= x < |call.params| && x != k ==> mocks[j].request.params[x] == mocks[i].request.params[x]
    ensures !Closer(rules, mocks[j].request.params[k], mocks[i].request.params[k], call.params[k])
  {
    CloserScoresMore(rules, mocks[j].request, mocks[i].request, call, k);
  }

  /** Of an expression of at least two characters, the last two are never tested. */
  lemma {:induction false} ExpressionIsCut(e: Text)
    requires |e| >= 2
    ensures var s := "@{" + e + "}"; IsRegex(s) && Expression(s) == e[..|e| - 2]
  {
  }

  // ---------------------------------------------------------------------------------------------
  // Exact queries and templates
  // ---------------------------------------------------------------------------------------------

  /** With fewer than 3000 parameters, a mock with the very query of the call beats every template. */
  lemma {:induction false} ExactBeatsTemplate(rules: Rules, exact: Request, template: Request, call: Request)
    requires Matches(rules, exact, call) && Matches(rules, template, call)
    requires rules.same(exact.query, call.query) && !rules.same(template.query, call.query)
    requires |call.params| < 3000
    ensures Score(rules, exact, call) > Score(rules, template, call)
  {
    assert ParamsScore(rules, template.params, call.params) <= 3 * |template.params|;
  }

  lemma {:induction false} NullsScoreNothing(rules: Rules, possible: seq<Option<Text>>, actual: seq<Option<Text>>)
    requires |possible| == |actual|
    requires forall i :: 0 <= i < |possible| ==> possible[i].None? && actual[i].Some?
    ensures ParamsScore(rules, possible, actual) == 0
  {
    if |possible| > 0 {
      NullsScoreNothing(rules, possible[1..], actual[1..]);
    }
  }

  lemma {:induction false} SameScoresAll(rules: Rules, params: seq<Option<Text>>)
    requires forall s :: rules.same(s, s)
    ensures ParamsScore(rules, params, params) == 3 * |params|
  {
    if |params| > 0 {
      SameScoresAll(rules, params[1..]);
    }
  }

  /** From 3000 parameters on, a template with all parameters right is not beaten by the exact query with none. */
  lemma {:induction false} TemplateMayWin(rules: Rules, exact: Request, template: Request, call: Request)
    requires Matches(rules, exact, call) && Matches(rules, template, call)
    requires rules.same(exact.query, call.query) && !rules.same(template.query, call.query)
    requires (forall s :: rules.same(s, s)) && template.params == call.params
    requires forall i :: 0 <= i < |call.params| ==> exact.params[i].None? && call.params[i].Some?
    ensures Score(rules, template, call) >= Score(rules, exact, call) <==> |call.params| >= 3000
  {
    SameScoresAll(rules, call.params);
    NullsScoreNothing(rules, exact.params, call.params);
  }

  /** So the choice falls on a template only if no mock has the very query of the call. */
  lemma {:induction false} BestIsExact(rules: Rules, mocks: seq<Mock>, call: Request, i: int, j: int)
    requires EarliestBest(rules, mocks, call, i) && |call.params| < 3000
    requires 0 <= j < |mocks| && Matches(rules, mocks[j].request, call)
    requires rules.same(mocks[j].request.query, call.query)
    ensures rules.same(mocks[i].request.query, call.query)
  {
    if !rules.same(mocks[i].request.query, call.query) {
      ExactBeatsTemplate(rules, mocks[j].request, mocks[i].request, call);
    }
  }
}
