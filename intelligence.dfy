/**
 * The bounded reasoning layer: a fixed acknowledgement for non-blank input,
 * a read-only router, and the decision in its driver that keeps execution
 * switched off.
 */
module Intelligence {
  import opened Base
  import opened Json
  import opened PyText
  import opened Capabilities
  import opened Confidence
  import opened ActuationThreshold
  import opened IntentBindings
  import opened Dispatch
  import opened ExecutionBinding
  import opened ExecutionStub

  const Analysis: string :=
    "Input received. Analyzing structure and intent "
    + "without assuming context, identity, or history."
  const Response: string :=
    "Statement acknowledged. No action taken "
    + "without an explicit request."

  datatype Reasoning = Reasoning(status: string, analysis: string, response: string)

  /** `reason`: the context is accepted and never read. */
  function Reason(text: string, context: Option<Record>): (r: Reasoning)
    ensures IsBlank(text) ==> r == Reasoning("no-input", "", "")
    ensures !IsBlank(text) ==> r == Reasoning("ok", Analysis, Response)
  {
    StripShape(text);
    if Strip(text) == [] then Reasoning("no-input", "", "")
    else Reasoning("ok", Analysis, Response)
  }

  /** The reasoning depends on neither the wording of non-blank text nor the context. */
  lemma ReasonIsFixed(t1: string, c1: Option<Record>, t2: string, c2: Option<Record>)
    requires IsBlank(t1) == IsBlank(t2)
    ensures Reason(t1, c1) == Reason(t2, c2)
  {
  }

  datatype Routing = Routing(kind: string, intent: string, summary: Option<string>)

  /** Python `words[:v]` for the context's "summary_words": `None` keeps every word, `bool` counts as 0/1, a float raises. */
  function SliceStop(v: Value, wordCount: nat): (r: Result<int>)
    ensures r.Ok? <==> v.Null? || v.Bool? || v.Int?
    ensures v.Null? ==> r == Ok(wordCount)
    ensures v.Int? ==> r == Ok(v.i)
  {
    match v
    case Null => Ok(wordCount)
    case Bool(b) => Ok(if b then 1 else 0)
    case Int(i) => Ok(i)
    case _ => Err("TypeError")
  }

  function SummaryStop(context: Record, text: string): (r: Result<int>)
    ensures "summary_words" !in context ==> r == Ok(DefaultSummaryWords)
  {
    SliceStop(Get(context, "summary_words", Int(DefaultSummaryWords)), |Split(text)|)
  }

  /** `route`: the type and intent always, a summary only when "allow_summary" is truthy. */
  function Route(text: string, context: Option<Record>): (r: Result<Routing>)
    ensures r.Ok? ==> r.value.kind == Classify(text) && r.value.intent == ExtractIntent(text)
    ensures r.Ok? ==> (r.value.summary.Some? <==> Truthy(Get(context.GetOr(map[]), "allow_summary", Null)))
    ensures r.Err? <==> Truthy(Get(context.GetOr(map[]), "allow_summary", Null)) && SummaryStop(context.GetOr(map[]), text).Err?
    ensures r.Ok? && r.value.summary.Some? ==> r.value.summary.value == Summarize(text, SummaryStop(context.GetOr(map[]), text).value)
  {
    var ctx := context.GetOr(map[]);
    if Truthy(Get(ctx, "allow_summary", Null)) then
      var n := SummaryStop(ctx, text);
      if n.Err? then Err(n.error)
      else Ok(Routing(Classify(text), ExtractIntent(text), Some(Summarize(text, n.value))))
    else Ok(Routing(Classify(text), ExtractIntent(text), None))
  }

  /** Without "summary_words" the summary keeps twelve words. */
  lemma TwelveWordsByDefault(text: string, context: Record)
    requires Truthy(Get(context, "allow_summary", Null)) && "summary_words" !in context
    ensures Route(text, Some(context)) == Ok(Routing(Classify(text), ExtractIntent(text), Some(Summarize(text, 12))))
  {
  }

  /** A "summary_words" of `None` summarises every word. */
  lemma NullSummaryWordsKeepsAll(text: string, context: Record)
    requires Truthy(Get(context, "allow_summary", Null)) && "summary_words" in context && context["summary_words"] == Null
    ensures Route(text, Some(context)).Ok?
    ensures Split(Route(text, Some(context)).value.summary.value) == Split(text)
  {
    assert SummaryStop(context, text) == Ok(|Split(text)|);
    var s := Summarize(text, |Split(text)|);
    assert Route(text, Some(context)) == Ok(Routing(Classify(text), ExtractIntent(text), Some(s)));
  }

  /** The execution step of the driver: run the first permitted capability only on an ALLOW. */
  datatype ExecutionStep = Ran(execution: Execution) | Skipped(reason: string)

  function ExecutionBranch(allowed: seq<string>, text: string, mode: string, operatorOk: bool): (e: ExecutionStep)
    ensures e.Ran? <==> mode == "execute" && operatorOk && allowed != []
    ensures e.Ran? ==> e.execution == Execute(allowed[0], text)
    ensures e.Skipped? ==> e.reason == MayExecute(allowed, mode, operatorOk).reason
  {
    var decision := MayExecute(allowed, mode, operatorOk);
    if decision.verdict == Allow then Ran(Execute(allowed[0], text))
    else Skipped(decision.reason)
  }

  /** The driver passes "dry-run" and no approval, so nothing is ever executed. */
  lemma DriverNeverExecutes(allowed: seq<string>, text: string)
    ensures ExecutionBranch(allowed, text, "dry-run", false) == Skipped("execution mode not enabled")
  {
  }

  /** The driver's status is CLEAN and its confidence, computed from no inputs, is 1.0. */
  function DriverStatus(): Record {
    map["status" := Str("CLEAN")]
  }

  /**
   * What the driver grants and dispatches for a text: act is allowed, and the
   * only intent the table binds that `extract_intent` can produce is
   * "explanation", so "explain" is granted exactly when the text mentions "why".
   */
  lemma DriverBindings(text: string)
    ensures ComputeConfidence(None, None) == Ok(1.0)
    ensures MayAct(1.0, DriverStatus(), None, DefaultConfidenceThreshold) == Decision(Allow, "all thresholds satisfied")
    ensures AllowedCapabilities(ExtractIntent(text), 1.0, DriverStatus()).allowed == if Mentions(text, "why") then ["explain"] else []
  {
    var intent := ExtractIntent(text);
    assert StatusClean(DriverStatus());
    if !Mentions(text, "why") {
      assert intent !in Table;
    }
  }
}
