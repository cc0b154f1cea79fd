/**
 * The entropy gate: observe the stripped input, measure its distinct-character
 * ratio, keep the last ten ratios in a window, and raise the "stabilize"
 * constraint (with a 0.7 dampening factor) while the window's mean is above a
 * configured ceiling. The ceiling, read from the environment by the original,
 * is a constructor parameter here.
 */
module EntropyGate {
  import opened Base
  import opened PyText
  import opened Json

  /** Capacity of the entropy window (`deque(maxlen=10)`). */
  const WindowSize: nat := 10
  /** The ceiling used when the environment does not set one. */
  const DefaultEntropyMax: real := 0.30
  /** The dampening factor reported while "stabilize" is active. */
  const StabilizedDampening: real := 0.7

  /** The distinct characters of `s` (Python `set(s)`). */
  function Chars(s: string): (cs: set<char>)
    ensures forall c :: c in cs <==> c in s
  {
    set c | c in s
  }

  /** A string has at least one and at most `|s|` distinct characters. */
  lemma {:induction false} DistinctBound(s: string)
    ensures |Chars(s)| <= |s|
    ensures |s| > 0 ==> |Chars(s)| > 0
    decreases |s|
  {
    if |s| > 0 {
      assert s[0] in Chars(s);
      assert Chars(s) == {s[0]} + Chars(s[1..]) by {
        forall c ensures c in Chars(s) <==> c in {s[0]} + Chars(s[1..]) {
          assert c in s <==> c == s[0] || c in s[1..] by {
            assert s == [s[0]] + s[1..];
          }
        }
      }
      DistinctBound(s[1..]);
    }
  }

  /** `sum(xs)`. */
  function Sum(xs: seq<real>): real {
    if |xs| == 0 then 0.0 else xs[0] + Sum(xs[1..])
  }

  predicate AllUnit(xs: seq<real>) {
    forall k :: 0 <= k < |xs| ==> 0.0 <= xs[k] <= 1.0
  }

  /** The sum of `n` values drawn from [0,1] lies in [0,n]. */
  lemma {:induction false} SumBounds(xs: seq<real>)
    requires AllUnit(xs)
    ensures 0.0 <= Sum(xs) <= |xs| as real
    decreases |xs|
  {
    if |xs| > 0 {
      assert AllUnit(xs[1..]) by {
        forall k | 0 <= k < |xs[1..]| ensures 0.0 <= xs[1..][k] <= 1.0 {
          assert xs[1..][k] == xs[k + 1];
        }
      }
      SumBounds(xs[1..]);
    }
  }

  /** The arithmetic mean of a non-empty window. */
  function Mean(xs: seq<real>): (m: real)
    requires |xs| > 0
    ensures AllUnit(xs) ==> 0.0 <= m <= 1.0
  {
    if AllUnit(xs) then SumBounds(xs); Sum(xs) / |xs| as real
    else Sum(xs) / |xs| as real
  }

  /** A constant window has that constant as its mean. */
  lemma {:induction false} MeanOfConstant(xs: seq<real>, v: real)
    requires |xs| > 0
    requires forall k :: 0 <= k < |xs| ==> xs[k] == v
    ensures Mean(xs) == v
  {
    SumOfConstant(xs, v);
  }

  lemma {:induction false} SumOfConstant(xs: seq<real>, v: real)
    requires forall k :: 0 <= k < |xs| ==> xs[k] == v
    ensures Sum(xs) == |xs| as real * v
    decreases |xs|
  {
    if |xs| > 0 {
      assert forall k :: 0 <= k < |xs[1..]| ==> xs[1..][k] == xs[k + 1];
      SumOfConstant(xs[1..], v);
    }
  }

  /** What `process` reports (the original rounds each number to four places). */
  datatype Snapshot = Snapshot(
    entropy: real,
    meanEntropy: real,
    activeConstraints: seq<string>,
    identityPressure: real)
  {
    /** The snapshot as the dictionary `process` returns. */
    function AsRecord(): Record {
      map[
        "entropy" := Num(entropy),
        "mean_entropy" := Num(meanEntropy),
        "active_constraints" := List(seq(|activeConstraints|, k requires 0 <= k < |activeConstraints| => Str(activeConstraints[k]))),
        "identity_pressure" := Num(identityPressure)]
    }
  }

  class IntelligenceGate {
    /** `ENTROPY_MAX`. */
    const entropyMax: real
    /** The last `WindowSize` entropies, oldest first. */
    var entropyWindow: seq<real>
    var activeConstraints: set<string>
    var identityPressure: real
    /** Every entropy the gate has measured, oldest first. */
    ghost var observed: seq<real>

    ghost predicate Valid()
      reads this
    {
      && entropyWindow == LastN(observed, WindowSize)
      && AllUnit(entropyWindow)
      && activeConstraints <= {"stabilize"}
      && identityPressure == 0.0
    }

    constructor (entropyMax: real)
      ensures Valid()
      ensures this.entropyMax == entropyMax
      ensures entropyWindow == [] && observed == []
      ensures activeConstraints == {}
      ensures identityPressure == 0.0
    {
      this.entropyMax := entropyMax;
      entropyWindow := [];
      activeConstraints := {};
      identityPressure := 0.0;
      observed := [];
    }

    /** The signal is the input with surrounding whitespace removed. */
    static function ExtractSignal(text: string): (signal: string)
      ensures |signal| <= |text|
      ensures signal == [] <==> IsBlank(text)
      ensures signal != [] ==> !IsSpace(signal[0]) && !IsSpace(signal[|signal| - 1])
    {
      StripShape(text);
      Strip(text)
    }

    /** Extracting the signal of a signal changes nothing. */
    static lemma ExtractSignalIdempotent(text: string)
      ensures ExtractSignal(ExtractSignal(text)) == ExtractSignal(text)
    {
      StripIdempotent(text);
    }

    /** Distinct characters over length: 0 on empty text, otherwise in (0,1]. */
    static function MeasureEntropy(text: string): (e: real)
      ensures text == [] ==> e == 0.0
      ensures text != [] ==> 0.0 < e <= 1.0
      ensures text != [] ==> e * |text| as real == |Chars(text)| as real
    {
      if text == [] then 0.0
      else
        DistinctBound(text);
        |Chars(text)| as real / |text| as real
    }

    method Process(text: string) returns (snap: Snapshot, dampening: real)
      requires Valid()
      modifies this`entropyWindow, this`activeConstraints, this`observed
      ensures Valid()
      ensures snap.entropy == MeasureEntropy(ExtractSignal(text))
      ensures observed == old(observed) + [snap.entropy]
      ensures entropyWindow == LastN(old(entropyWindow) + [snap.entropy], WindowSize)
      ensures |entropyWindow| <= WindowSize
      ensures snap.meanEntropy == Mean(entropyWindow)
      ensures 0.0 <= snap.meanEntropy <= 1.0
      ensures activeConstraints == if snap.meanEntropy > entropyMax then {"stabilize"} else {}
      ensures snap.activeConstraints == if snap.meanEntropy > entropyMax then ["stabilize"] else []
      ensures snap.identityPressure == identityPressure == 0.0
      ensures dampening == if "stabilize" in activeConstraints then StabilizedDampening else 1.0
      ensures 0.0 < dampening <= 1.0
    {
      var signal := ExtractSignal(text);
      var entropy := MeasureEntropy(signal);
      WindowStep(observed, entropyWindow, entropy);
      entropyWindow := LastN(entropyWindow + [entropy], WindowSize);
      observed := observed + [entropy];

      var meanEntropy := Mean(entropyWindow);

      activeConstraints := {};
      if meanEntropy > entropyMax {
        activeConstraints := activeConstraints + {"stabilize"};
      }

      var listed := if "stabilize" in activeConstraints then ["stabilize"] else [];
      snap := Snapshot(entropy, meanEntropy, listed, identityPressure);

      dampening := 1.0;
      if "stabilize" in activeConstraints {
        dampening := StabilizedDampening;
      }
    }
  }

  /** Appending to the trimmed window is trimming the whole record of entropies, and keeps every value in [0,1]. */
  lemma WindowStep(observed: seq<real>, window: seq<real>, e: real)
    requires window == LastN(observed, WindowSize) && AllUnit(window)
    requires 0.0 <= e <= 1.0
    ensures LastN(window + [e], WindowSize) == LastN(observed + [e], WindowSize)
    ensures AllUnit(LastN(window + [e], WindowSize))
  {
    LastNAppend(observed, e, WindowSize);
    var w := window + [e];
    var r := LastN(w, WindowSize);
    forall k | 0 <= k < |r| ensures 0.0 <= r[k] <= 1.0 {
      LastNIndex(w, WindowSize, k);
    }
  }

  /** Feeding the gate one text `n` times makes the window hold that text's entropy `min(n, 10)` times. */
  lemma {:induction false} RepeatedInputWindow(e: real, n: nat)
    ensures LastN(Repeat(e, n), WindowSize) == Repeat(e, if n <= WindowSize then n else WindowSize)
    decreases n
  {
    if n > WindowSize {
      assert Repeat(e, n)[1..] == Repeat(e, n - 1) by {
        RepeatTail(e, n);
      }
      RepeatedInputWindow(e, n - 1);
    }
  }

  function Repeat(e: real, n: nat): (r: seq<real>)
    ensures |r| == n
    ensures forall k :: 0 <= k < n ==> r[k] == e
  {
    seq(n, _ => e)
  }

  lemma RepeatTail(e: real, n: nat)
    requires n > 0
    ensures Repeat(e, n)[1..] == Repeat(e, n - 1)
  {
  }

  /** A gate fed only identical texts reports that text's entropy as its mean. */
  lemma RepeatedInputMean(e: real, n: nat)
    requires n > 0
    ensures Mean(LastN(Repeat(e, n), WindowSize)) == e
  {
    RepeatedInputWindow(e, n);
    MeanOfConstant(LastN(Repeat(e, n), WindowSize), e);
  }
}
