/**
 * The thin orchestrator: on non-blank input, always classify and extract the
 * intent, and summarise unless the context switches summaries off.
 */
module Orchestrator {
  import opened Base
  import opened Json
  import opened PyText
  import opened Capabilities

  /** One capability's result in the "results" dictionary. */
  datatype Output = Classified(kind: string) | IntentOf(intent: string) | Summary(summary: string)

  datatype Routed = Routed(status: string, used: seq<string>, results: map<string, Output>)

  predicate IsDigit(c: char) {
    '0' <= c <= '9'
  }

  predicate AllDigits(d: string) {
    |d| > 0 && forall k :: 0 <= k < |d| ==> IsDigit(d[k])
  }

  /** The value of a run of decimal digits. */
  function DigitsValue(d: string): nat
    requires forall k :: 0 <= k < |d| ==> IsDigit(d[k])
  {
    if |d| == 0 then 0
    else
      assert IsDigit(d[|d| - 1]);
      DigitsValue(d[..|d| - 1]) * 10 + (d[|d| - 1] as int - '0' as int)
  }

  /** Python `int(s)` for a string: optional surrounding whitespace, an optional sign, then ASCII digits. */
  function ParseInt(s: string): (r: Result<int>)
    ensures r.Ok? <==> (var t := Strip(s); AllDigits(t) || (|t| > 0 && (t[0] == '+' || t[0] == '-') && AllDigits(t[1..])))
    ensures r.Err? ==> r.error == "ValueError"
    ensures r.Ok? && r.value < 0 ==> Strip(s)[0] == '-'
  {
    var t := Strip(s);
    if |t| > 0 && (t[0] == '+' || t[0] == '-') && AllDigits(t[1..]) then
      var v: int := DigitsValue(t[1..]);
      Ok(if t[0] == '-' then -v else v)
    else if AllDigits(t) then Ok(DigitsValue(t))
    else Err("ValueError")
  }

  /** Python `int(x)` for a float: truncation toward zero. */
  function Trunc(x: real): (n: int)
    ensures x >= 0.0 ==> n as real <= x < n as real + 1.0
    ensures x < 0.0 ==> n as real - 1.0 < x <= n as real
  {
    if x >= 0.0 then x.Floor else -((-x).Floor)
  }

  /** Python `int(v)` for a context value. */
  function PyInt(v: Value): (r: Result<int>)
    ensures v.Int? ==> r == Ok(v.i)
    ensures v.Bool? || v.Num? ==> r.Ok?
    ensures r.Err? <==> (v.Str? && ParseInt(v.s).Err?) || !(v.Int? || v.Bool? || v.Num? || v.Str?)
  {
    match v
    case Int(i) => Ok(i)
    case Bool(b) => Ok(if b then 1 else 0)
    case Num(x) => Ok(Trunc(x))
    case Str(s) => ParseInt(s)
    case _ => Err("TypeError")
  }

  /** `bool(context.get("allow_summary", True))`. */
  predicate AllowSummary(context: Record) {
    Truthy(Get(context, "allow_summary", Bool(true)))
  }

  function SummaryWords(context: Record): Result<int> {
    PyInt(Get(context, "summary_words", Int(DefaultSummaryWords)))
  }

  /** The capabilities run on non-blank stripped text `t`. */
  function RouteText(t: string, context: Record): (r: Result<Routed>)
    ensures r.Err? <==> AllowSummary(context) && SummaryWords(context).Err?
    ensures r.Ok? ==> r.value.results.Keys == {"classify", "extract_intent"} + (if AllowSummary(context) then {"summarize"} else {})
    ensures r.Ok? ==>
      && r.value.status == "ok"
      && r.value.used == ["classify", "extract_intent"] + (if AllowSummary(context) then ["summarize"] else [])
      && r.value.results["classify"] == Classified(Classify(t))
      && r.value.results["extract_intent"] == IntentOf(ExtractIntent(t))
    ensures r.Ok? && AllowSummary(context) ==> r.value.results["summarize"] == Summary(Summarize(t, SummaryWords(context).value))
  {
    var used := ["classify", "extract_intent"];
    var results := map["classify" := Classified(Classify(t)), "extract_intent" := IntentOf(ExtractIntent(t))];
    if AllowSummary(context) then
      var n := SummaryWords(context);
      if n.Err? then Err(n.error)
      else Ok(Routed("ok", used + ["summarize"], results["summarize" := Summary(Summarize(t, n.value))]))
    else Ok(Routed("ok", used, results))
  }

  /** `route`: "no-input" on a missing or blank text, otherwise the capabilities on the stripped text. */
  function Route(text: Option<string>, context: Option<Record>): (r: Result<Routed>)
    ensures IsBlank(text.GetOr("")) ==> r == Ok(Routed("no-input", [], map[]))
    ensures !IsBlank(text.GetOr("")) ==> r == RouteText(Strip(text.GetOr("")), context.GetOr(map[]))
  {
    StripShape(text.GetOr(""));
    var t := Strip(text.GetOr(""));
    if t == [] then Ok(Routed("no-input", [], map[]))
    else RouteText(t, context.GetOr(map[]))
  }

  /** The keys of "results" are exactly the names in "used". */
  lemma ResultsMatchUsed(t: string, context: Record)
    ensures var r := RouteText(t, context);
      r.Ok? ==> forall k :: k in r.value.results <==> k in r.value.used
  {
  }

  /** Without a context, non-blank text is summarised to at most twelve words. */
  lemma DefaultContextSummarises(text: string)
    requires !IsBlank(text)
    ensures var r := Route(Some(text), None);
      && r.Ok?
      && r.value.used == ["classify", "extract_intent", "summarize"]
      && r.value.results["summarize"] == Summary(Summarize(Strip(text), 12))
      && |Split(r.value.results["summarize"].summary)| <= 12
  {
  }

  /** A missing text routes like an empty one. */
  lemma MissingTextIsNoInput(context: Option<Record>)
    ensures Route(None, context) == Route(Some(""), context) == Ok(Routed("no-input", [], map[]))
  {
  }

  lemma ParseIntExamples()
    ensures ParseInt(" 12 ") == Ok(12)
    ensures ParseInt("-3") == Ok(-3)
    ensures ParseInt("1.5").Err?
  {
    assert Strip(" 12 ") == "12" by {
      assert StripLeft(" 12 ") == "12 " by { assert " 12 "[1..] == "12 "; }
      assert StripRight("12 ") == "12" by { assert "12 "[..2] == "12"; }
    }
    assert DigitsValue("12") == 12 by { assert "12"[..1] == "1"; assert "1"[..0] == ""; }
    assert Strip("-3") == "-3";
    assert "-3"[1..] == "3";
    assert DigitsValue("3") == 3 by { assert "3"[..0] == ""; }
    assert Strip("1.5") == "1.5";
    assert !AllDigits("1.5") by { assert !IsDigit("1.5"[1]); }
    assert !AllDigits("1.5"[1..]) by { assert !IsDigit("1.5"[1]); }
  }
}
