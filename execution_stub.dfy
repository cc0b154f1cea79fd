/**
 * The controlled execution stub: one capability ("explain"), one fixed
 * output, and refusals for everything else.
 */
module ExecutionStub {
  import opened PyText

  const Explanation: string :=
    "Elyria is stable because each layer operates under strict constraints, "
    + "with explicit boundaries between understanding, permission, and action."

  /** `{"status": "DENIED" | "NOOP", "reason": …}` or `{"status": "EXECUTED", "capability": …, "output": …}`. */
  datatype Execution =
    | Refused(status: string, reason: string)
    | Executed(capability: string, output: string)

  function Execute(capability: string, text: string): (r: Execution)
    ensures capability != "explain" ==> r == Refused("DENIED", "capability not executable")
    ensures capability == "explain" && IsBlank(text) ==> r == Refused("NOOP", "empty input")
    ensures r.Executed? <==> capability == "explain" && !IsBlank(text)
    ensures r.Executed? ==> r == Executed("explain", Explanation)
  {
    StripShape(text);
    if capability != "explain" then Refused("DENIED", "capability not executable")
    else if Strip(text) == [] then Refused("NOOP", "empty input")
    else Executed("explain", Explanation)
  }

  /** The text matters only through whether it is blank. */
  lemma OnlyBlanknessMatters(capability: string, t1: string, t2: string)
    requires IsBlank(t1) == IsBlank(t2)
    ensures Execute(capability, t1) == Execute(capability, t2)
  {
  }
}
