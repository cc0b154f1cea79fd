/**
 * The invariant auditor: five named predicates evaluated over every logged
 * event, with an exception counting as a failure of that pair, and a return
 * code of 1 (no data), 2 (violations) or 0 (clean). The log arrives here
 * already parsed; reading and decoding the file is not part of this model.
 */
module Invariants {
  import opened Base
  import opened Json
  import opened PyText
  import opened EntropyGate

  /** The outcome of one predicate on one event. */
  datatype Check = Holds | Violated | Raised

  /** The predicates in declaration order. */
  const Names: seq<string> := ["entropy_bound", "mean_entropy_bound", "dampening_range", "no_identity_write", "constraints_explicit"]
  const RuleCount: nat := 5

  /** Python `e[key]`: only a dict can be indexed by a string, and a missing key raises. */
  function Subscript(e: Value, key: string): Result<Value> {
    match e
    case Obj(fields) => if key in fields then Ok(fields[key]) else Err("KeyError")
    case _ => Err("TypeError")
  }

  /** `lo <= v <= 1.0` (or `lo < v <= 1.0` when `strict`) on a subscript; ordering a non-number raises. */
  function InRange(v: Result<Value>, lo: real, strict: bool): (c: Check)
    ensures c == Raised <==> v.Err? || !IsNumeric(v.value)
    ensures c == Holds ==> lo <= NumOf(v.value) <= 1.0 && (strict ==> lo != NumOf(v.value))
    ensures c == Violated ==> NumOf(v.value) < lo || 1.0 < NumOf(v.value) || (strict && NumOf(v.value) == lo)
  {
    if v.Err? || !IsNumeric(v.value) then Raised
    else if (if strict then lo < NumOf(v.value) else lo <= NumOf(v.value)) && NumOf(v.value) <= 1.0 then Holds
    else Violated
  }

  /** Python `key in e`: a key of a dict, an item of a list, a substring of a string; other values raise. */
  function Has(e: Value, key: string): (c: Check)
    ensures c == Raised <==> !(e.Obj? || e.List? || e.Str?)
    ensures e.Obj? ==> (c == Holds <==> key in e.fields)
  {
    match e
    case Obj(fields) => if key in fields then Holds else Violated
    case List(items) => if Str(key) in items then Holds else Violated
    case Str(s) => if Contains(s, key) then Holds else Violated
    case _ => Raised
  }

  /** `isinstance(e.get(key), list)`: only a dict has `get`. */
  function ListValued(e: Value, key: string): (c: Check)
    ensures c == Raised <==> !e.Obj?
    ensures e.Obj? && key !in e.fields ==> c == Violated
  {
    match e
    case Obj(fields) => if Get(fields, key, Null).List? then Holds else Violated
    case _ => Raised
  }

  /** Predicate `k` of the table applied to event `e`. */
  function Rule(k: nat, e: Value): (c: Check)
    requires k < RuleCount
    ensures k != 3 && !e.Obj? ==> c == Raised
    ensures k == 3 ==> (c == Raised <==> !(e.Obj? || e.List? || e.Str?))
    ensures k == 4 ==> (c == Raised <==> !e.Obj?)
    ensures k < 3 && c == Holds ==>
      var key := if k == 0 then "entropy" else if k == 1 then "mean_entropy" else "dampening";
      e.Obj? && key in e.fields && IsNumeric(e.fields[key]) && 0.0 <= NumOf(e.fields[key]) <= 1.0
  {
    if k == 0 then InRange(Subscript(e, "entropy"), 0.0, false)
    else if k == 1 then InRange(Subscript(e, "mean_entropy"), 0.0, false)
    else if k == 2 then InRange(Subscript(e, "dampening"), 0.0, true)
    else if k == 3 then Has(e, "identity_pressure")
    else ListValued(e, "active_constraints")
  }

  /** The third component of a failure: the offending event, or the marker "exception". */
  datatype Detail = Offending(event: Value) | Exception

  datatype Failure = Failure(index: nat, name: string, detail: Detail)

  function FailureOf(i: nat, k: nat, e: Value): Failure
    requires k < RuleCount
  {
    Failure(i, Names[k], if Rule(k, e) == Raised then Exception else Offending(e))
  }

  /** The failures of event `i` among the first `n` predicates, in predicate order. */
  function EventFailuresUpTo(i: nat, e: Value, n: nat): seq<Failure>
    requires n <= RuleCount
  {
    if n == 0 then []
    else EventFailuresUpTo(i, e, n - 1) + (if Rule(n - 1, e) == Holds then [] else [FailureOf(i, n - 1, e)])
  }

  function EventFailures(i: nat, e: Value): seq<Failure> {
    EventFailuresUpTo(i, e, RuleCount)
  }

  /** The failures of the first `n` events, in event order. */
  function FailuresUpTo(events: seq<Value>, n: nat): seq<Failure>
    requires n <= |events|
  {
    if n == 0 then []
    else FailuresUpTo(events, n - 1) + EventFailures(n - 1, events[n - 1])
  }

  function AllFailures(events: seq<Value>): seq<Failure> {
    FailuresUpTo(events, |events|)
  }

  /** `verify` over an already-parsed event list: the return code and the failure list. */
  method Verify(events: seq<Value>) returns (code: int, failures: seq<Failure>)
    ensures events == [] ==> code == 1 && failures == []
    ensures events != [] ==> failures == AllFailures(events)
    ensures code == 0 <==> events != [] && failures == []
    ensures code == 2 <==> failures != []
  {
    if events == [] {
      return 1, [];
    }
    failures := [];
    for i := 0 to |events|
      invariant failures == FailuresUpTo(events, i)
    {
      for k := 0 to RuleCount
        invariant failures == FailuresUpTo(events, i) + EventFailuresUpTo(i, events[i], k)
      {
        var check := Rule(k, events[i]);
        if check == Violated {
          failures := failures + [Failure(i, Names[k], Offending(events[i]))];
        } else if check == Raised {
          failures := failures + [Failure(i, Names[k], Exception)];
        }
      }
    }
    code := if failures == [] then 0 else 2;
  }

  /** The position of a predicate name in the table (5 for any other string). */
  function RuleIndex(name: string): (k: nat)
    ensures k < RuleCount ==> Names[k] == name
  {
    if name == Names[0] then 0
    else if name == Names[1] then 1
    else if name == Names[2] then 2
    else if name == Names[3] then 3
    else if name == Names[4] then 4
    else 5
  }

  /** The table's names are distinct. */
  lemma RuleIndexOfName(k: nat)
    requires k < RuleCount
    ensures RuleIndex(Names[k]) == k
  {
  }

  /** The sort key of a failure: event first, then predicate. */
  function Key(f: Failure): int {
    f.index * (RuleCount + 1) + RuleIndex(f.name)
  }

  predicate Increasing(fs: seq<Failure>) {
    forall a, b :: 0 <= a < b < |fs| ==> Key(fs[a]) < Key(fs[b])
  }

  lemma IncreasingConcat(xs: seq<Failure>, ys: seq<Failure>)
    requires Increasing(xs) && Increasing(ys)
    requires forall a, b :: 0 <= a < |xs| && 0 <= b < |ys| ==> Key(xs[a]) < Key(ys[b])
    ensures Increasing(xs + ys)
  {
    var zs := xs + ys;
    forall a, b | 0 <= a < b < |zs| ensures Key(zs[a]) < Key(zs[b]) {
      if b < |xs| {
        assert zs[a] == xs[a] && zs[b] == xs[b];
      } else if a >= |xs| {
        assert zs[a] == ys[a - |xs|] && zs[b] == ys[b - |xs|];
      } else {
        assert zs[a] == xs[a] && zs[b] == ys[b - |xs|];
      }
    }
  }

  /** One event's failures carry that event's index and predicates below `n`, at most one per predicate. */
  lemma {:induction false} EventFailuresBounds(i: nat, e: Value, n: nat)
    requires n <= RuleCount
    ensures var fs := EventFailuresUpTo(i, e, n);
      && |fs| <= n
      && forall a :: 0 <= a < |fs| ==> fs[a].index == i && RuleIndex(fs[a].name) < n
    decreases n
  {
    if n > 0 {
      EventFailuresBounds(i, e, n - 1);
      RuleIndexOfName(n - 1);
      var prev := EventFailuresUpTo(i, e, n - 1);
      var fs := EventFailuresUpTo(i, e, n);
      forall a | 0 <= a < |fs| ensures fs[a].index == i && RuleIndex(fs[a].name) < n {
        if a < |prev| { assert fs[a] == prev[a]; }
      }
    }
  }

  /** One event's failures come in predicate order. */
  lemma {:induction false} EventFailuresIncreasing(i: nat, e: Value, n: nat)
    requires n <= RuleCount
    ensures Increasing(EventFailuresUpTo(i, e, n))
    decreases n
  {
    if n > 0 {
      EventFailuresIncreasing(i, e, n - 1);
      EventFailuresBounds(i, e, n - 1);
      RuleIndexOfName(n - 1);
      var prev := EventFailuresUpTo(i, e, n - 1);
      var last := if Rule(n - 1, e) == Holds then [] else [FailureOf(i, n - 1, e)];
      forall a, b | 0 <= a < |prev| && 0 <= b < |last| ensures Key(prev[a]) < Key(last[b]) {
        assert RuleIndex(prev[a].name) < n - 1;
      }
      IncreasingConcat(prev, last);
    }
  }

  /** Predicate `k` of an event is listed among that event's failures exactly when it does not hold. */
  lemma {:induction false} EventFailureMember(i: nat, e: Value, n: nat, k: nat)
    requires k < n <= RuleCount
    ensures FailureOf(i, k, e) in EventFailuresUpTo(i, e, n) <==> Rule(k, e) != Holds
    decreases n
  {
    var f := FailureOf(i, k, e);
    var prev := EventFailuresUpTo(i, e, n - 1);
    var last := if Rule(n - 1, e) == Holds then [] else [FailureOf(i, n - 1, e)];
    RuleIndexOfName(k);
    RuleIndexOfName(n - 1);
    if k == n - 1 {
      EventFailuresBounds(i, e, n - 1);
      assert forall a :: 0 <= a < |prev| ==> prev[a] != f;
    } else {
      EventFailureMember(i, e, n - 1, k);
      assert f !in last;
    }
  }

  /** The failures of the first `n` events have indices below `n`, at most five per event. */
  lemma {:induction false} FailuresBounds(events: seq<Value>, n: nat)
    requires n <= |events|
    ensures var fs := FailuresUpTo(events, n);
      && |fs| <= RuleCount * n
      && forall a :: 0 <= a < |fs| ==> fs[a].index < n && RuleIndex(fs[a].name) < RuleCount
    decreases n
  {
    if n > 0 {
      FailuresBounds(events, n - 1);
      EventFailuresBounds(n - 1, events[n - 1], RuleCount);
      var prev := FailuresUpTo(events, n - 1);
      var last := EventFailures(n - 1, events[n - 1]);
      var fs := prev + last;
      forall a | 0 <= a < |fs| ensures fs[a].index < n && RuleIndex(fs[a].name) < RuleCount {
        if a < |prev| { assert fs[a] == prev[a]; } else { assert fs[a] == last[a - |prev|]; }
      }
    }
  }

  /** The failures of the first `n` events are sorted by (event, predicate). */
  lemma {:induction false} FailuresIncreasing(events: seq<Value>, n: nat)
    requires n <= |events|
    ensures Increasing(FailuresUpTo(events, n))
    decreases n
  {
    if n > 0 {
      FailuresIncreasing(events, n - 1);
      FailuresBounds(events, n - 1);
      EventFailuresBounds(n - 1, events[n - 1], RuleCount);
      EventFailuresIncreasing(n - 1, events[n - 1], RuleCount);
      var prev := FailuresUpTo(events, n - 1);
      var last := EventFailures(n - 1, events[n - 1]);
      forall a, b | 0 <= a < |prev| && 0 <= b < |last| ensures Key(prev[a]) < Key(last[b]) {
        assert prev[a].index < n - 1 && last[b].index == n - 1;
      }
      IncreasingConcat(prev, last);
    }
  }

  /** Pair (i, k) is listed among the failures of the first `n` events exactly when predicate `k` fails on event `i`. */
  lemma {:induction false} FailureMember(events: seq<Value>, n: nat, i: nat, k: nat)
    requires i < n <= |events| && k < RuleCount
    ensures FailureOf(i, k, events[i]) in FailuresUpTo(events, n) <==> Rule(k, events[i]) != Holds
    decreases n
  {
    var f := FailureOf(i, k, events[i]);
    var prev := FailuresUpTo(events, n - 1);
    var last := EventFailures(n - 1, events[n - 1]);
    if i == n - 1 {
      EventFailureMember(i, events[i], RuleCount, k);
      FailuresBounds(events, n - 1);
      assert forall a :: 0 <= a < |prev| ==> prev[a] != f;
    } else {
      FailureMember(events, n - 1, i, k);
      EventFailuresBounds(n - 1, events[n - 1], RuleCount);
      assert forall a :: 0 <= a < |last| ==> last[a] != f;
    }
  }

  /** Every (event, predicate) pair is evaluated: it appears in the failure list exactly when the predicate fails or raises. */
  lemma EveryPairEvaluated(events: seq<Value>, i: nat, k: nat)
    requires i < |events| && k < RuleCount
    ensures FailureOf(i, k, events[i]) in AllFailures(events) <==> Rule(k, events[i]) != Holds
    ensures Rule(k, events[i]) == Raised ==> Failure(i, Names[k], Exception) in AllFailures(events)
  {
    FailureMember(events, |events|, i, k);
  }

  /** The failure list is ordered by event index, then by predicate order, with at most five entries per event. */
  lemma FailuresOrdered(events: seq<Value>)
    ensures Increasing(AllFailures(events))
    ensures |AllFailures(events)| <= RuleCount * |events|
    ensures forall i :: 0 <= i < |events| ==> |EventFailures(i, events[i])| <= RuleCount
  {
    FailuresIncreasing(events, |events|);
    FailuresBounds(events, |events|);
    forall i | 0 <= i < |events| ensures |EventFailures(i, events[i])| <= RuleCount {
      EventFailuresBounds(i, events[i], RuleCount);
    }
  }

  /** The record `instrumentation.record` writes for a snapshot and a dampening factor (its timestamp is a parameter). */
  function InstrumentationRecord(ts: string, snapshot: Record, dampening: real): Value {
    Obj(map[
      "ts" := Str(ts),
      "entropy" := Get(snapshot, "entropy", Null),
      "mean_entropy" := Get(snapshot, "mean_entropy", Null),
      "active_constraints" := Get(snapshot, "active_constraints", List([])),
      "identity_pressure" := Get(snapshot, "identity_pressure", Null),
      "dampening" := Num(dampening)])
  }

  /** Every record logged for a gate snapshot passes all five predicates. */
  lemma GateRecordsPass(ts: string, snap: Snapshot, dampening: real, k: nat)
    requires 0.0 <= snap.entropy <= 1.0 && 0.0 <= snap.meanEntropy <= 1.0
    requires 0.0 < dampening <= 1.0
    requires k < RuleCount
    ensures Rule(k, InstrumentationRecord(ts, snap.AsRecord(), dampening)) == Holds
  {
    var g := snap.AsRecord();
    assert "entropy" in g && "mean_entropy" in g && "active_constraints" in g && "identity_pressure" in g;
  }

  /** A gate record whose dampening is 1.5 fails exactly one predicate, "dampening_range". */
  lemma DampeningOutOfRange(snap: Snapshot)
    requires 0.0 <= snap.entropy <= 1.0 && 0.0 <= snap.meanEntropy <= 1.0
    ensures var e := InstrumentationRecord("", snap.AsRecord(), 1.5);
      EventFailures(0, e) == [Failure(0, "dampening_range", Offending(e))]
  {
    var e := InstrumentationRecord("", snap.AsRecord(), 1.5);
    var g := snap.AsRecord();
    assert "entropy" in g && "mean_entropy" in g && "active_constraints" in g && "identity_pressure" in g;
    assert Rule(0, e) == Holds && Rule(1, e) == Holds && Rule(3, e) == Holds && Rule(4, e) == Holds;
    assert Rule(2, e) == Violated;
    assert EventFailuresUpTo(0, e, 1) == [];
    assert EventFailuresUpTo(0, e, 2) == [];
    assert EventFailuresUpTo(0, e, 3) == [FailureOf(0, 2, e)];
    assert EventFailuresUpTo(0, e, 4) == [FailureOf(0, 2, e)];
  }

  /** A record that is not a dictionary raises on every predicate that indexes or calls `get`. */
  lemma NumberRecordRaises(x: real)
    ensures EventFailures(0, Num(x)) == seq(RuleCount, k requires 0 <= k < RuleCount => Failure(0, Names[k], Exception))
  {
    var e := Num(x);
    assert EventFailuresUpTo(0, e, 1) == [Failure(0, Names[0], Exception)];
    assert EventFailuresUpTo(0, e, 2) == [Failure(0, Names[0], Exception), Failure(0, Names[1], Exception)];
    assert EventFailuresUpTo(0, e, 3) == [Failure(0, Names[0], Exception), Failure(0, Names[1], Exception), Failure(0, Names[2], Exception)];
    assert EventFailuresUpTo(0, e, 4) == [Failure(0, Names[0], Exception), Failure(0, Names[1], Exception), Failure(0, Names[2], Exception),
      Failure(0, Names[3], Exception)];
  }
}
