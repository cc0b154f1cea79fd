/**
 * The static intent-to-capability table and the guard in front of it: only
 * a clean invariant status and a confidence of at least 0.5 unlock an entry.
 */
module IntentBindings {
  import opened Json
  import opened ActuationThreshold

  /** The binding table; intents it does not list bind nothing. */
  const Table: map<string, seq<string>> := map[
    "statement" := [],
    "explanation" := ["explain"],
    "question" := ["explain"],
    "request" := []]

  const MinConfidence: real := 0.5

  datatype Binding = Binding(allowed: seq<string>, reason: string)

  function AllowedCapabilities(intent: string, confidence: real, status: Record): (b: Binding)
    ensures forall k :: 0 <= k < |b.allowed| ==> b.allowed[k] == "explain"
    ensures |b.allowed| <= 1
    ensures "explain" in b.allowed <==> (intent == "explanation" || intent == "question") && StatusClean(status) && confidence >= MinConfidence
    ensures !StatusClean(status) ==> b == Binding([], "invariants not clean")
    ensures StatusClean(status) && confidence < MinConfidence ==> b == Binding([], "confidence too low")
    ensures StatusClean(status) && confidence >= MinConfidence ==> b.reason == "explicit binding"
    ensures intent !in Table ==> b.allowed == []
  {
    if !StatusClean(status) then Binding([], "invariants not clean")
    else if confidence < MinConfidence then Binding([], "confidence too low")
    else Binding(if intent in Table then Table[intent] else [], "explicit binding")
  }

  /** More confidence never withdraws a capability, and a binding depends on the status only through its "status" entry. */
  lemma ConfidenceMonotone(intent: string, c1: real, c2: real, status: Record)
    requires c1 <= c2
    ensures AllowedCapabilities(intent, c1, status).allowed != [] ==>
      AllowedCapabilities(intent, c2, status).allowed == AllowedCapabilities(intent, c1, status).allowed
    ensures AllowedCapabilities(intent, c1, status) == AllowedCapabilities(intent, c1, map["status" := Get(status, "status", Null)])
  {
  }
}
