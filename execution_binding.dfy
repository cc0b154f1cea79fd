/**
 * The final execution gate: execution needs execute mode, an operator's
 * approval and at least one capability, checked in that order.
 */
module ExecutionBinding {
  import opened Base

  const DefaultMode: string := "dry-run"
  const DefaultOperatorOk: bool := false

  function MayExecute(capabilities: seq<string>, mode: string, operatorOk: bool): (d: Decision)
    ensures d.verdict == Allow <==> mode == "execute" && operatorOk && |capabilities| > 0
    ensures d.verdict == Allow ==> d.reason == "explicit execution binding satisfied"
    ensures mode != "execute" ==> d == Decision(Deny, "execution mode not enabled")
    ensures mode == "execute" && !operatorOk ==> d == Decision(Deny, "operator approval not present")
    ensures d.reason == "no executable capabilities" <==> mode == "execute" && operatorOk && capabilities == []
  {
    if mode != "execute" then Decision(Deny, "execution mode not enabled")
    else if !operatorOk then Decision(Deny, "operator approval not present")
    else if |capabilities| == 0 then Decision(Deny, "no executable capabilities")
    else Decision(Allow, "explicit execution binding satisfied")
  }

  /** The default arguments deny every capability list. */
  lemma DefaultsDeny(capabilities: seq<string>)
    ensures MayExecute(capabilities, DefaultMode, DefaultOperatorOk) == Decision(Deny, "execution mode not enabled")
  {
  }
}
