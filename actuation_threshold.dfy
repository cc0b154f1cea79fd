/**
 * The thresholded actuation gate: a decision record only, never an action.
 * Checks run in priority order and the first failing one names the denial:
 * invariants, then confidence, then an optional policy.
 */
module ActuationThreshold {
  import opened Base
  import opened Json

  const DefaultConfidenceThreshold: real := 0.75

  /** `invariant_status.get("status") == "CLEAN"`: a missing key is not clean. */
  predicate StatusClean(status: Record) {
    Get(status, "status", Null) == Str("CLEAN")
  }

  /** A non-empty policy whose "allow_action" (default `True`) is falsy. */
  predicate PolicyProhibits(policy: Option<Record>) {
    policy.Some? && policy.value != map[] && !Truthy(Get(policy.value, "allow_action", Bool(true)))
  }

  function MayAct(confidence: real, status: Record, policy: Option<Record>, threshold: real): (d: Decision)
    ensures d.verdict == Allow <==> StatusClean(status) && confidence >= threshold && !PolicyProhibits(policy)
    ensures d.verdict == Allow ==> d.reason == "all thresholds satisfied"
    ensures !StatusClean(status) ==> d == Decision(Deny, "invariants not clean")
    ensures StatusClean(status) && confidence < threshold ==> d == Decision(Deny, "confidence below threshold")
    ensures d.reason == "policy prohibits action" <==> StatusClean(status) && confidence >= threshold && PolicyProhibits(policy)
  {
    if !StatusClean(status) then Decision(Deny, "invariants not clean")
    else if confidence < threshold then Decision(Deny, "confidence below threshold")
    else if PolicyProhibits(policy) then Decision(Deny, "policy prohibits action")
    else Decision(Allow, "all thresholds satisfied")
  }

  /** Raising the threshold can turn ALLOW into DENY but never the reverse. */
  lemma ThresholdMonotone(confidence: real, status: Record, policy: Option<Record>, t1: real, t2: real)
    requires t1 <= t2
    ensures MayAct(confidence, status, policy, t2).verdict == Allow ==> MayAct(confidence, status, policy, t1).verdict == Allow
  {
  }

  /** A policy that says nothing about "allow_action" never denies. */
  lemma PolicyWithoutAllowAction(confidence: real, status: Record, policy: Record)
    requires "allow_action" !in policy
    ensures MayAct(confidence, status, Some(policy), DefaultConfidenceThreshold) == MayAct(confidence, status, None, DefaultConfidenceThreshold)
  {
  }

  /** An all-clear status and full confidence are acted on at the default threshold unless the policy forbids it. */
  lemma FullConfidenceActs(policy: Option<Record>)
    ensures MayAct(1.0, map["status" := Str("CLEAN")], policy, DefaultConfidenceThreshold).verdict == Allow <==> !PolicyProhibits(policy)
  {
  }
}
