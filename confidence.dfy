/**
 * Confidence estimation: a score in [0,1] that starts at 1, loses up to 0.4
 * for the gate's mean entropy and 0.2 while "stabilize" is active, and drops
 * to 0 when the invariant status is not CLEAN. The two arguments are optional
 * dictionaries; an empty one is treated like a missing one, as Python's truth
 * test does.
 */
module Confidence {
  import opened Base
  import opened Json
  import opened PyText
  import opened EntropyGate

  /** Python `min(a, b)`: the first argument unless the second is smaller. */
  function Min(a: real, b: real): (m: real)
    ensures m <= a && m <= b && (m == a || m == b)
  {
    if b < a then b else a
  }

  /** Python `max(a, b)`. */
  function Max(a: real, b: real): (m: real)
    ensures m >= a && m >= b && (m == a || m == b)
  {
    if b > a then b else a
  }

  /** An optional dictionary argument that Python's `if d:` accepts. */
  predicate Given(d: Option<Record>) {
    d.Some? && d.value != map[]
  }

  /** Python `"stabilize" in v`: list membership, substring, or key test; any other value raises. */
  function HasStabilize(v: Value): (r: Result<bool>)
    ensures r.Ok? <==> v.List? || v.Str? || v.Obj?
    ensures v.List? ==> r == Ok(Str("stabilize") in v.items)
    ensures v == List([]) ==> r == Ok(false)
  {
    match v
    case List(items) => Ok(Str("stabilize") in items)
    case Str(s) => Ok(Contains(s, "stabilize"))
    case Obj(fields) => Ok("stabilize" in fields)
    case _ => Err("TypeError")
  }

  /** The snapshot fields the score reads, with their defaults. */
  function MeanEntropyOf(gate: Record): Value {
    Get(gate, "mean_entropy", Num(0.0))
  }

  function ConstraintsOf(gate: Record): Value {
    Get(gate, "active_constraints", List([]))
  }

  /** The invariant status is CLEAN, absent, empty, or lacks a "status" key. */
  predicate Clean(status: Option<Record>) {
    !Given(status) || Get(status.value, "status", Str("CLEAN")) == Str("CLEAN")
  }

  /** The score before the invariant override and the final clamp. */
  function Unclamped(entropy: real, stabilized: bool): real {
    1.0 - Min(entropy, 1.0) * 0.4 - (if stabilized then 0.2 else 0.0)
  }

  /** `compute_confidence`; comparing a non-number with 1.0 or testing membership in a non-container raises. */
  function ComputeConfidence(gate: Option<Record>, status: Option<Record>): (r: Result<real>)
    ensures r.Ok? ==> 0.0 <= r.value <= 1.0
    ensures r.Err? <==> Given(gate) && (HasStabilize(ConstraintsOf(gate.value)).Err? || !IsNumeric(MeanEntropyOf(gate.value)))
    ensures !Given(gate) ==> r == Ok(if Clean(status) then 1.0 else 0.0)
    ensures r.Ok? && !Clean(status) ==> r.value == 0.0
  {
    var entropy := if Given(gate) then MeanEntropyOf(gate.value) else Num(0.0);
    var stabilized := if Given(gate) then HasStabilize(ConstraintsOf(gate.value)) else Ok(false);
    if stabilized.Err? then Err(stabilized.error)
    else if !IsNumeric(entropy) then Err("TypeError")
    else
      var c := Unclamped(NumOf(entropy), stabilized.value);
      var c' := if Clean(status) then c else 0.0;
      Ok(Max(0.0, Min(c', 1.0)))
  }

  /** With neither argument the score is full confidence. */
  lemma NoInputsFullConfidence()
    ensures ComputeConfidence(None, None) == Ok(1.0)
  {
  }

  /** More mean entropy never raises the score. */
  lemma MeanEntropyMonotone(gate: Record, x1: real, x2: real, status: Option<Record>)
    requires x1 <= x2
    requires HasStabilize(ConstraintsOf(gate)).Ok?
    ensures var r1 := ComputeConfidence(Some(gate["mean_entropy" := Num(x1)]), status);
      var r2 := ComputeConfidence(Some(gate["mean_entropy" := Num(x2)]), status);
      r1.Ok? && r2.Ok? && r2.value <= r1.value
  {
    assert ConstraintsOf(gate["mean_entropy" := Num(x1)]) == ConstraintsOf(gate);
    assert ConstraintsOf(gate["mean_entropy" := Num(x2)]) == ConstraintsOf(gate);
  }

  /** On a clean status, "stabilize" costs exactly 0.2 for any mean entropy in [0,1]. */
  lemma StabilizeCostsTwoTenths(x: real)
    requires 0.0 <= x <= 1.0
    ensures var calm := ComputeConfidence(Some(map["mean_entropy" := Num(x), "active_constraints" := List([])]), None);
      var tense := ComputeConfidence(Some(map["mean_entropy" := Num(x), "active_constraints" := List([Str("stabilize")])]), None);
      calm.Ok? && tense.Ok? && calm.value - tense.value == 0.2
  {
    var g := map["mean_entropy" := Num(x), "active_constraints" := List([Str("stabilize")])];
    assert ConstraintsOf(g) == List([Str("stabilize")]);
    assert HasStabilize(ConstraintsOf(g)) == Ok(true);
  }

  /** Keys other than "mean_entropy" and "active_constraints" (such as "entropy") are never read. */
  lemma OnlyTwoKeysRead(gate: Record, key: string, v: Value, status: Option<Record>)
    requires gate != map[]
    requires key != "mean_entropy" && key != "active_constraints"
    ensures ComputeConfidence(Some(gate[key := v]), status) == ComputeConfidence(Some(gate), status)
  {
    assert MeanEntropyOf(gate[key := v]) == MeanEntropyOf(gate);
    assert ConstraintsOf(gate[key := v]) == ConstraintsOf(gate);
  }

  /** A snapshot without "mean_entropy" scores as if it were 0. */
  lemma MissingMeanEntropyIsZero(gate: Record, status: Option<Record>)
    requires gate != map[] && "mean_entropy" !in gate
    ensures ComputeConfidence(Some(gate), status) == ComputeConfidence(Some(gate["mean_entropy" := Num(0.0)]), status)
  {
    assert ConstraintsOf(gate["mean_entropy" := Num(0.0)]) == ConstraintsOf(gate);
  }

  /** A status dictionary without a "status" key counts as clean. */
  lemma StatusWithoutKeyIsClean(gate: Option<Record>, status: Record)
    requires "status" !in status
    ensures ComputeConfidence(gate, Some(status)) == ComputeConfidence(gate, None)
  {
  }

  /** Every snapshot the entropy gate produces is scored without error, at least 0.4 and exactly by the formula. */
  lemma {:induction false} SnapshotConfidence(snap: Snapshot)
    requires 0.0 <= snap.meanEntropy <= 1.0
    requires snap.activeConstraints == [] || snap.activeConstraints == ["stabilize"]
    ensures var r := ComputeConfidence(Some(snap.AsRecord()), None);
      && r.Ok?
      && r.value == 1.0 - 0.4 * snap.meanEntropy - (if snap.activeConstraints == [] then 0.0 else 0.2)
      && r.value >= 0.4
  {
    var g := snap.AsRecord();
    assert "entropy" in g;
    assert MeanEntropyOf(g) == Num(snap.meanEntropy);
    if snap.activeConstraints == [] {
      assert ConstraintsOf(g) == List([]);
    } else {
      assert ConstraintsOf(g) == List([Str("stabilize")]);
    }
  }
}
