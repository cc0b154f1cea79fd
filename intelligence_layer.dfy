/**
 * The coherence state machine: bounded coherence (K) and recursion-pressure (R)
 * estimates of a text turn, the per-session state with its 6-deep histories,
 * trailing slope, turn counter and NORMAL/COOLDOWN hysteresis, the segmentation
 * trigger, and the checkpoint that captures bullet and annotation lines.
 *
 * The estimator's memory of the previous turn's tokens, a function attribute
 * in the original, is the explicit field `lastTokens` of `ILState`.
 */
module IntelligenceLayer {
  import opened Base
  import opened PyText

  // ------------------------------------------------------------------
  // Bounded scalars
  // ------------------------------------------------------------------

  /** `max(0.0, min(1.0, x))`. */
  function Clamp01(x: real): (r: real)
    ensures 0.0 <= r <= 1.0
    ensures 0.0 <= x <= 1.0 ==> r == x
    ensures x < 0.0 ==> r == 0.0
    ensures 1.0 < x ==> r == 1.0
  {
    if 1.0 < x then 1.0 else if x < 0.0 then 0.0 else x
  }

  lemma Clamp01Monotone(x: real, y: real)
    requires x <= y
    ensures Clamp01(x) <= Clamp01(y)
  {
  }

  // ------------------------------------------------------------------
  // The repeated-word pattern \b(\w+)\b(?:\s+\1\b){2,}
  // ------------------------------------------------------------------

  /** `\w`, over ASCII. */
  predicate IsWordChar(c: char) {
    ('a' <= c <= 'z') || ('A' <= c <= 'Z') || ('0' <= c <= '9') || c == '_'
  }

  /** End of the run of word characters starting at `i`. */
  function WordEnd(t: string, i: nat): (j: nat)
    requires i <= |t|
    ensures i <= j <= |t|
    ensures forall k :: i <= k < j ==> IsWordChar(t[k])
    ensures j == |t| || !IsWordChar(t[j])
    decreases |t| - i
  {
    if i < |t| && IsWordChar(t[i]) then WordEnd(t, i + 1) else i
  }

  /** End of the run of whitespace starting at `i`. */
  function SpaceEnd(t: string, i: nat): (j: nat)
    requires i <= |t|
    ensures i <= j <= |t|
    decreases |t| - i
  {
    if i < |t| && IsSpace(t[i]) then SpaceEnd(t, i + 1) else i
  }

  /** One `\s+\1\b` step after position `j`: the position just past the repeated word `w`, if it matches. */
  function RepeatAfter(t: string, j: nat, w: string): (r: Option<nat>)
    requires j <= |t|
    ensures r.Some? ==> j + 1 + |w| <= r.value <= |t|
  {
    var k := SpaceEnd(t, j);
    if j < k && k + |w| <= |t| && t[k..k + |w|] == w && (k + |w| == |t| || !IsWordChar(t[k + |w|]))
    then Some(k + |w|)
    else None
  }

  /** The pattern matches at `i`: a whole word there, repeated at least twice more, separated by whitespace only. */
  predicate RepeatAt(t: string, i: nat)
    requires i < |t|
    ensures RepeatAt(t, i) ==> i + 5 <= |t|
  {
    && IsWordChar(t[i])
    && (i == 0 || !IsWordChar(t[i - 1]))
    && var j := WordEnd(t, i);
       var w := t[i..j];
       var second := RepeatAfter(t, j, w);
       second.Some? && RepeatAfter(t, second.value, w).Some?
  }

  /** `_RE_REPEAT.search(t)` succeeds. */
  predicate HasTripleRepeat(t: string)
    ensures HasTripleRepeat(t) ==> |t| >= 5
  {
    exists i :: 0 <= i < |t| && RepeatAt(t, i)
  }

  lemma TripleRepeatExample()
    ensures HasTripleRepeat("go go go")
    ensures !HasTripleRepeat("go go")
  {
    var t := "go go go";
    assert WordEnd(t, 0) == 2;
    assert SpaceEnd(t, 2) == 3;
    assert SpaceEnd(t, 5) == 6;
    assert RepeatAt(t, 0);
    var u := "go go";
    forall i | 0 <= i < |u| ensures !RepeatAt(u, i) {
      if i == 0 {
        assert WordEnd(u, 0) == 2;
        assert SpaceEnd(u, 2) == 3;
        assert RepeatAfter(u, 2, "go") == Some(5);
        assert SpaceEnd(u, 5) == 5;
      } else if i == 3 {
        assert WordEnd(u, 3) == 5;
        assert SpaceEnd(u, 5) == 5;
      }
    }
  }

  // ------------------------------------------------------------------
  // Estimators
  // ------------------------------------------------------------------

  /** Occurrences of the self-reference markers "again", "repeat" and "as i said". */
  function SelfReferences(t: string): (n: nat)
    ensures n == 0 <==> !Contains(t, "again") && !Contains(t, "repeat") && !Contains(t, "as i said")
  {
    Count(t, "again") + Count(t, "repeat") + Count(t, "as i said")
  }

  /** `estimate_recursion`: 0.6 for a tripled word plus 0.1 per self-reference marker, clamped. */
  function EstimateRecursion(text: string): (r: real)
    ensures 0.0 <= r <= 1.0
    ensures HasTripleRepeat(Lower(text)) ==> r >= 0.6
    ensures r == 0.0 <==> !HasTripleRepeat(Lower(text)) && SelfReferences(Lower(text)) == 0
  {
    var t := Lower(text);
    var repeats := if HasTripleRepeat(t) then 1.0 else 0.0;
    Clamp01(0.6 * repeats + 0.1 * SelfReferences(t) as real)
  }

  /** The estimator's output together with the token memory it leaves for the next call. */
  datatype CoherenceReading = CoherenceReading(k: real, tokens: set<string>)

  /** `set(text.lower().split())`. */
  function TokenSet(text: string): set<string> {
    set w | w in Split(Lower(text))
  }

  /** 1.0 when the stripped text ends in terminal punctuation, else 0.5. */
  function Closure(text: string): real {
    var s := Strip(text);
    if EndsWith(s, ".") || EndsWith(s, "!") || EndsWith(s, "?") then 1.0 else 0.5
  }

  function LengthFactor(text: string): real {
    Clamp01((|text| - 80) as real / 400.0)
  }

  /** Penalty for tokens shared with the previous turn. */
  function SoftPenalty(overlap: nat): (p: real)
    ensures 0.0 <= p <= 0.15
    ensures overlap == 0 ==> p == 0.0
    ensures overlap >= 20 ==> p == 0.15
  {
    Clamp01(overlap as real / 20.0) * 0.15
  }

  function HardPenalty(text: string): real {
    if HasTripleRepeat(Lower(text)) then 0.2 else 0.0
  }

  /**
   * `estimate_coherence`, with the remembered token set of the previous call
   * passed in and the new one handed back.
   */
  function EstimateCoherence(text: string, lastTokens: set<string>): (c: CoherenceReading)
    ensures 0.0 <= c.k <= 1.0
    ensures IsBlank(text) ==> c.k == 0.0 && c.tokens == lastTokens
    ensures !IsBlank(text) ==> c.tokens == TokenSet(text)
    ensures !IsBlank(text) && HasTripleRepeat(Lower(text)) ==> c.k <= 0.8
  {
    StripShape(text);
    if Strip(text) == [] then CoherenceReading(0.0, lastTokens)
    else
      var tokens := TokenSet(text);
      var overlap := |tokens * lastTokens|;
      var raw := 0.6 * Closure(text) + 0.4 * LengthFactor(text) - (SoftPenalty(overlap) + HardPenalty(text));
      CoherenceReading(Clamp01(raw), tokens)
  }

  /** The soft overlap penalty removes at most 0.15 from a non-blank turn's coherence. */
  lemma OverlapPenaltyBounded(text: string, a: set<string>, b: set<string>)
    requires !IsBlank(text)
    ensures EstimateCoherence(text, a).k - EstimateCoherence(text, b).k <= 0.15
  {
    StripShape(text);
    var base := 0.6 * Closure(text) + 0.4 * LengthFactor(text) - HardPenalty(text);
    var pa := SoftPenalty(|TokenSet(text) * a|);
    var pb := SoftPenalty(|TokenSet(text) * b|);
    assert EstimateCoherence(text, a).k == Clamp01(base - pa);
    assert EstimateCoherence(text, b).k == Clamp01(base - pb);
  }

  // ------------------------------------------------------------------
  // Session state as a value (what `asdict(ILState)` holds)
  // ------------------------------------------------------------------

  /** The `invariants` field: `{}` before any checkpoint, `{"constraints": lines}` after one. */
  datatype Checkpoint = NoCheckpoint | Constraints(lines: seq<string>)

  /**
   * `trace_hash`: the empty string initially, afterwards the digest of the
   * canonical `{"K", "R", "t"}` document. The digest is kept symbolic: it is
   * the hashed content itself, so two digests are equal exactly when their
   * contents are.
   */
  datatype TraceHash = NoTrace | Digest(kHist: seq<real>, rHist: seq<real>, turn: int)

  datatype StateRecord = StateRecord(
    kT: real,
    rT: real,
    kHist: seq<real>,
    rHist: seq<real>,
    ktSlope2: real,
    turnIndex: int,
    cooldownActive: bool,
    cooldownTurnsLeft: int,
    cooldownExitK: real,
    cooldownMinTurns: int,
    lastSegmentTurn: int,
    invariants: Checkpoint,
    traceHash: TraceHash)

  const HistoryCap: nat := 6
  const CooldownTurns: int := 2

  /** The defaults of a fresh `ILState()` (what `il_init` serialises). */
  function Initial(): StateRecord {
    StateRecord(1.0, 0.0, [], [], 0.0, 0, false, 0, 0.90, 2, -10, NoCheckpoint, NoTrace)
  }

  function TraceDigest(kHist: seq<real>, rHist: seq<real>, turn: int): TraceHash {
    Digest(kHist, rHist, turn)
  }

  /** Trailing 2-step slope of a history: half the change over the last three entries. */
  function Slope2(h: seq<real>): real {
    if |h| >= 3 then (h[|h| - 1] - h[|h| - 3]) / 2.0 else 0.0
  }

  /** The first half of a turn: count it, record K and R in the capped histories, recompute the slope and the trace hash. */
  function Recorded(s: StateRecord, k: real, r: real): (t: StateRecord)
    ensures |t.kHist| <= HistoryCap && |t.rHist| <= HistoryCap
    ensures t.turnIndex == s.turnIndex + 1 && t.kT == k && t.rT == r
    ensures t.cooldownActive == s.cooldownActive && t.cooldownTurnsLeft == s.cooldownTurnsLeft
    ensures t.lastSegmentTurn == s.lastSegmentTurn && t.invariants == s.invariants
  {
    var turn := s.turnIndex + 1;
    var kh := LastN(s.kHist + [k], HistoryCap);
    var rh := LastN(s.rHist + [r], HistoryCap);
    s.(kT := k, rT := r, kHist := kh, rHist := rh, ktSlope2 := Slope2(kh), turnIndex := turn,
       traceHash := TraceDigest(kh, rh, turn))
  }

  /** The second half of a turn: in COOLDOWN, count down and leave it once enough turns were served, none are left and K has recovered. */
  function Tick(s: StateRecord): (t: StateRecord)
    ensures t.cooldownActive ==> s.cooldownActive
    ensures !s.cooldownActive ==> t == s
    ensures t.kHist == s.kHist && t.rHist == s.rHist && t.turnIndex == s.turnIndex && t.kT == s.kT && t.rT == s.rT
  {
    if s.cooldownActive then
      var left := s.cooldownTurnsLeft - 1;
      var served := s.turnIndex - s.lastSegmentTurn >= s.cooldownMinTurns;
      s.(cooldownTurnsLeft := left, cooldownActive := !(served && left <= 0 && s.kT >= s.cooldownExitK))
    else s
  }

  /** The state after one turn whose estimates were `k` and `r` (the effect of `update_state`). */
  function Step(s: StateRecord, k: real, r: real): (t: StateRecord)
    ensures |t.kHist| <= HistoryCap && |t.rHist| <= HistoryCap
  {
    Tick(Recorded(s, k, r))
  }

  /** A record that agrees field by field with the effect of one turn is that turn's `Step`. */
  lemma StepByFields(s: StateRecord, k: real, r: real, t: StateRecord)
    requires t.turnIndex == s.turnIndex + 1 && t.kT == k && t.rT == r
    requires t.kHist == LastN(s.kHist + [k], HistoryCap) && t.rHist == LastN(s.rHist + [r], HistoryCap)
    requires t.ktSlope2 == Slope2(t.kHist) && t.traceHash == TraceDigest(t.kHist, t.rHist, t.turnIndex)
    requires t.cooldownTurnsLeft == if s.cooldownActive then s.cooldownTurnsLeft - 1 else s.cooldownTurnsLeft
    requires t.cooldownActive == (s.cooldownActive
      && !(t.turnIndex - s.lastSegmentTurn >= s.cooldownMinTurns && t.cooldownTurnsLeft <= 0 && k >= s.cooldownExitK))
    requires t.cooldownExitK == s.cooldownExitK && t.cooldownMinTurns == s.cooldownMinTurns
    requires t.lastSegmentTurn == s.lastSegmentTurn && t.invariants == s.invariants
    ensures t == Step(s, k, r)
  {
  }

  lemma StepCounterAndScalars(s: StateRecord, k: real, r: real)
    ensures var t := Step(s, k, r);
      && t.turnIndex == s.turnIndex + 1
      && |t.kHist| > 0 && t.kT == t.kHist[|t.kHist| - 1] == k
      && |t.rHist| > 0 && t.rT == t.rHist[|t.rHist| - 1] == r
      && t.cooldownExitK == s.cooldownExitK && t.cooldownMinTurns == s.cooldownMinTurns
      && t.lastSegmentTurn == s.lastSegmentTurn && t.invariants == s.invariants
  {
    var t := Step(s, k, r);
    LastNIndex(s.kHist + [k], HistoryCap, |t.kHist| - 1);
    LastNIndex(s.rHist + [r], HistoryCap, |t.rHist| - 1);
  }

  lemma StepHistories(s: StateRecord, k: real, r: real)
    ensures var t := Step(s, k, r);
      && t.kHist == LastN(s.kHist + [k], 6)
      && t.rHist == LastN(s.rHist + [r], 6)
      && |t.kHist| == if |s.kHist| + 1 <= 6 then |s.kHist| + 1 else 6
  {
  }

  lemma StepSlope(s: StateRecord, k: real, r: real)
    ensures var t := Step(s, k, r);
      t.ktSlope2 == if |t.kHist| >= 3 then (t.kHist[|t.kHist| - 1] - t.kHist[|t.kHist| - 3]) / 2.0 else 0.0
  {
  }

  /** Only `segment_now` enters COOLDOWN; an update can only leave it, and only by the three-condition test. */
  lemma StepCooldown(s: StateRecord, k: real, r: real)
    ensures var t := Step(s, k, r);
      && (t.cooldownActive ==> s.cooldownActive)
      && (s.cooldownActive ==> t.cooldownTurnsLeft == s.cooldownTurnsLeft - 1)
      && (s.cooldownActive ==>
            (!t.cooldownActive <==>
               t.turnIndex - s.lastSegmentTurn >= s.cooldownMinTurns
               && t.cooldownTurnsLeft <= 0
               && t.kT >= s.cooldownExitK))
      && (!s.cooldownActive ==>
            !t.cooldownActive && t.cooldownTurnsLeft == s.cooldownTurnsLeft
            && t.lastSegmentTurn == s.lastSegmentTurn)
      && t.lastSegmentTurn == s.lastSegmentTurn
      && t.cooldownExitK == s.cooldownExitK && t.cooldownMinTurns == s.cooldownMinTurns
      && t.invariants == s.invariants
  {
  }

  /** The trace hash is determined by, and determines, the histories and the turn counter. */
  lemma StepTraceHash(s1: StateRecord, k1: real, r1: real, s2: StateRecord, k2: real, r2: real)
    ensures var t1 := Step(s1, k1, r1);
            var t2 := Step(s2, k2, r2);
      t1.traceHash == t2.traceHash <==>
        t1.kHist == t2.kHist && t1.rHist == t2.rHist && t1.turnIndex == t2.turnIndex
  {
  }

  /** Two updates on a fresh state leave two history entries and a zero slope. */
  lemma FreshTwoUpdates(k1: real, r1: real, k2: real, r2: real)
    ensures var t := Step(Step(Initial(), k1, r1), k2, r2);
      t.kHist == [k1, k2] && t.rHist == [r1, r2] && t.ktSlope2 == 0.0 && t.turnIndex == 2
  {
    var t1 := Step(Initial(), k1, r1);
    assert t1.kHist == [k1] && t1.rHist == [r1] && t1.turnIndex == 1;
    var t2 := Step(t1, k2, r2);
    assert t1.kHist + [k2] == [k1, k2];
    assert t1.rHist + [r2] == [r1, r2];
    assert t2.kHist == [k1, k2];
  }

  /** The state after a sequence of turns with the given (K, R) estimates. */
  function Run(s: StateRecord, readings: seq<(real, real)>): StateRecord
    decreases |readings|
  {
    if readings == [] then s
    else
      var last := readings[|readings| - 1];
      Step(Run(s, readings[..|readings| - 1]), last.0, last.1)
  }

  function KsOf(readings: seq<(real, real)>): (ks: seq<real>)
    ensures |ks| == |readings|
    ensures forall i :: 0 <= i < |readings| ==> ks[i] == readings[i].0
  {
    seq(|readings|, i requires 0 <= i < |readings| => readings[i].0)
  }

  /**
   * Over any sequence of turns the counter advances once per turn, the K
   * history is the last six estimates of the whole run, and COOLDOWN is never
   * entered.
   */
  lemma {:induction false} RunInvariants(s: StateRecord, readings: seq<(real, real)>)
    ensures Run(s, readings).turnIndex == s.turnIndex + |readings|
    ensures readings != [] ==> Run(s, readings).kHist == LastN(s.kHist + KsOf(readings), 6)
    ensures Run(s, readings).cooldownActive ==> s.cooldownActive
    ensures readings != [] ==> |Run(s, readings).kHist| <= 6
    decreases |readings|
  {
    if readings != [] {
      var init := readings[..|readings| - 1];
      var last := readings[|readings| - 1];
      RunInvariants(s, init);
      assert KsOf(readings) == KsOf(init) + [last.0];
      var prev := Run(s, init);
      if init == [] {
        assert KsOf(readings) == [last.0];
      } else {
        assert prev.kHist == LastN(s.kHist + KsOf(init), 6);
        LastNAppend(s.kHist + KsOf(init), last.0, 6);
        assert s.kHist + KsOf(readings) == (s.kHist + KsOf(init)) + [last.0];
      }
    }
  }

  // ------------------------------------------------------------------
  // Segmentation
  // ------------------------------------------------------------------

  /**
   * `should_segment`: an accelerating collapse (slope below -0.15 with R above
   * 0.80) or saturation (R above 0.80, K and the last three K entries below
   * 0.45); in COOLDOWN the slope must also be below -0.30.
   */
  predicate ShouldSegment(s: StateRecord)
    ensures ShouldSegment(s) ==> s.rT > 0.80
    ensures ShouldSegment(s) && s.cooldownActive ==> s.ktSlope2 < -0.30
    ensures !s.cooldownActive && s.rT > 0.80 && s.ktSlope2 < -0.15 ==> ShouldSegment(s)
  {
    var acceleration := s.ktSlope2 < -0.15 && s.rT > 0.80;
    var saturation :=
      && s.rT > 0.80
      && s.kT < 0.45
      && |s.kHist| >= 3
      && forall k :: |s.kHist| - 3 <= k < |s.kHist| ==> s.kHist[k] < 0.45;
    var trigger := acceleration || saturation;
    if s.cooldownActive then trigger && s.ktSlope2 < -0.30 else trigger
  }

  /** The two worked cases: sustained saturation triggers; in COOLDOWN a slope of -0.20 does not. */
  lemma SegmentationExamples()
    ensures ShouldSegment(Initial().(kHist := [0.44, 0.4, 0.3], rT := 0.9, kT := 0.3))
    ensures !ShouldSegment(Initial().(kHist := [0.44, 0.4, 0.3], rT := 0.9, kT := 0.3,
                                      cooldownActive := true, ktSlope2 := -0.20))
  {
    var h := [0.44, 0.4, 0.3];
    forall k | |h| - 3 <= k < |h| ensures h[k] < 0.45 {
      assert k == 0 || k == 1 || k == 2;
    }
  }

  /** COOLDOWN only makes the trigger harder to reach. */
  lemma CooldownStricter(s: StateRecord)
    ensures ShouldSegment(s.(cooldownActive := true)) ==> ShouldSegment(s.(cooldownActive := false))
  {
  }

  /** A line kept at a checkpoint: stripped, and a bullet (`-`) or annotation (`#`). */
  predicate IsMarkedLine(line: string) {
    StartsWith(line, "-") || StartsWith(line, "#")
  }

  /** The stripped marked lines of `lines`, in order. */
  function KeptLines(lines: seq<string>): (kept: seq<string>)
    ensures |kept| <= |lines|
    ensures forall k :: 0 <= k < |kept| ==> kept[k] == Strip(kept[k]) && IsMarkedLine(kept[k])
    decreases |lines|
  {
    if lines == [] then []
    else
      var rest := KeptLines(lines[..|lines| - 1]);
      var line := Strip(lines[|lines| - 1]);
      StripIdempotent(lines[|lines| - 1]);
      if IsMarkedLine(line) then rest + [line] else rest
  }

  /** Each line of `lines`, stripped. */
  function StrippedLines(lines: seq<string>): (s: seq<string>)
    ensures |s| == |lines|
    ensures forall k :: 0 <= k < |lines| ==> s[k] == Strip(lines[k])
  {
    seq(|lines|, k requires 0 <= k < |lines| => Strip(lines[k]))
  }

  /** A line is kept exactly when it is the stripped form of an input line and is marked. */
  lemma KeptLinesMembers(lines: seq<string>, x: string)
    ensures x in KeptLines(lines) <==> exists i :: 0 <= i < |lines| && x == Strip(lines[i]) && IsMarkedLine(x)
  {
    if x in KeptLines(lines) {
      var i := KeptLineSource(lines, x);
    }
    if exists i :: 0 <= i < |lines| && x == Strip(lines[i]) && IsMarkedLine(x) {
      var i :| 0 <= i < |lines| && x == Strip(lines[i]) && IsMarkedLine(x);
      MarkedLineKept(lines, i);
    }
  }

  /** The position of the input line a kept line came from. */
  lemma {:induction false} KeptLineSource(lines: seq<string>, x: string) returns (i: nat)
    requires x in KeptLines(lines)
    ensures i < |lines| && x == Strip(lines[i]) && IsMarkedLine(x)
    decreases |lines|
  {
    var init := lines[..|lines| - 1];
    if x in KeptLines(init) {
      i := KeptLineSource(init, x);
      assert lines[i] == init[i];
    } else {
      i := |lines| - 1;
    }
  }

  /** A marked line of the input is kept. */
  lemma {:induction false} MarkedLineKept(lines: seq<string>, j: nat)
    requires j < |lines| && IsMarkedLine(Strip(lines[j]))
    ensures Strip(lines[j]) in KeptLines(lines)
    decreases |lines|
  {
    var init := lines[..|lines| - 1];
    if j < |init| {
      assert init[j] == lines[j];
      MarkedLineKept(init, j);
    }
  }

  /** The kept lines are the stripped input lines with the unmarked ones dropped, in their order. */
  lemma {:induction false} KeptLinesOrdered(lines: seq<string>)
    ensures Subsequence(KeptLines(lines), StrippedLines(lines))
    decreases |lines|
  {
    if lines != [] {
      var init := lines[..|lines| - 1];
      KeptLinesOrdered(init);
      assert StrippedLines(lines)[..|lines| - 1] == StrippedLines(init);
      var k := KeptLines(init);
      var line := Strip(lines[|lines| - 1]);
      if IsMarkedLine(line) {
        assert (k + [line])[..|k|] == k;
      }
    }
  }

  /** A checkpoint line comes from one of the last eight lines of `buffer`. */
  lemma KeptFromRecent(buffer: seq<string>, x: string) returns (i: int)
    requires x in KeptLines(LastN(buffer, 8))
    ensures 0 <= i < |buffer| && |buffer| - 8 <= i && x == Strip(buffer[i]) && IsMarkedLine(x)
  {
    var recent := LastN(buffer, 8);
    var j := KeptLineSource(recent, x);
    LastNIndex(buffer, 8, j);
    i := |buffer| - |recent| + j;
  }

  /** A marked line among the last eight of `buffer` is in the checkpoint. */
  lemma RecentKept(buffer: seq<string>, x: string, i: int)
    requires 0 <= i < |buffer| && |buffer| - 8 <= i && x == Strip(buffer[i]) && IsMarkedLine(x)
    ensures x in KeptLines(LastN(buffer, 8))
  {
    var recent := LastN(buffer, 8);
    var j := i - (|buffer| - |recent|);
    LastNIndex(buffer, 8, j);
    assert recent[j] == buffer[i];
    MarkedLineKept(recent, j);
  }

  /** The checkpoint of `buffer` holds exactly the stripped marked lines among its last eight. */
  lemma CheckpointLines(buffer: seq<string>, x: string)
    ensures x in KeptLines(LastN(buffer, 8)) <==>
      exists i :: 0 <= i < |buffer| && |buffer| - 8 <= i && x == Strip(buffer[i]) && IsMarkedLine(x)
  {
    if x in KeptLines(LastN(buffer, 8)) {
      var i := KeptFromRecent(buffer, x);
    }
    if exists i :: 0 <= i < |buffer| && |buffer| - 8 <= i && x == Strip(buffer[i]) && IsMarkedLine(x) {
      var i :| 0 <= i < |buffer| && |buffer| - 8 <= i && x == Strip(buffer[i]) && IsMarkedLine(x);
      RecentKept(buffer, x, i);
    }
  }

  /** `extract_invariants`: the marked lines among the last 8 of the transcript buffer, capped at 10. */
  method ExtractInvariants(buffer: seq<string>) returns (c: Checkpoint)
    ensures c == Constraints(KeptLines(LastN(buffer, 8)))
    ensures |c.lines| <= 8
    ensures forall k :: 0 <= k < |c.lines| ==> c.lines[k] == Strip(c.lines[k]) && IsMarkedLine(c.lines[k])
  {
    var recent := LastN(buffer, 8);
    var keep: seq<string> := [];
    var i := 0;
    while i < |recent|
      invariant 0 <= i <= |recent|
      invariant keep == KeptLines(recent[..i])
    {
      var line := Strip(recent[i]);
      if StartsWith(line, "-") || StartsWith(line, "#") {
        keep := keep + [line];
      }
      assert recent[..i + 1][..i] == recent[..i];
      i := i + 1;
    }
    assert recent[..|recent|] == recent;
    c := Constraints(FirstN(keep, 10));
  }

  /** The state after `segment_now` stored the checkpoint `c` (NORMAL to COOLDOWN). */
  function Segmented(s: StateRecord, c: Checkpoint): StateRecord {
    s.(invariants := c, cooldownActive := true, cooldownTurnsLeft := CooldownTurns,
       lastSegmentTurn := s.turnIndex)
  }

  /** A segmentation enters COOLDOWN for two turns at the current turn and leaves the signals and histories alone. */
  lemma SegmentedEffect(s: StateRecord, c: Checkpoint)
    ensures var t := Segmented(s, c);
      && t.cooldownActive && t.cooldownTurnsLeft == 2 && t.lastSegmentTurn == s.turnIndex
      && t.kHist == s.kHist && t.rHist == s.rHist && t.kT == s.kT && t.rT == s.rT
      && t.ktSlope2 == s.ktSlope2 && t.turnIndex == s.turnIndex && t.traceHash == s.traceHash
  {
  }

  /** Right after a checkpoint the next turn cannot leave COOLDOWN: two turns must be served. */
  lemma NoExitOnFirstTurnAfterSegment(s: StateRecord, c: Checkpoint, k: real, r: real)
    requires s.cooldownMinTurns == 2
    ensures Step(Segmented(s, c), k, r).cooldownActive
  {
  }

  datatype TurnMetrics = TurnMetrics(turn: int, kT: real, rT: real, ktSlope2: real, cooldown: bool, traceHash: TraceHash)

  function MetricsOf(s: StateRecord): TurnMetrics {
    TurnMetrics(s.turnIndex, s.kT, s.rT, s.ktSlope2, s.cooldownActive, s.traceHash)
  }

  /** The checkpoint record `segment_now` returns. */
  datatype SeedPack = SeedPack(
    reason: string, turn: int, kT: real, rT: real, ktSlope2: real,
    invariants: Checkpoint, traceHash: TraceHash)

  function SeedOf(s: StateRecord): SeedPack {
    SeedPack("LAST_RECOVERABLE_MOMENT", s.turnIndex, s.kT, s.rT, s.ktSlope2, s.invariants, s.traceHash)
  }

  // ------------------------------------------------------------------
  // The mutable session object
  // ------------------------------------------------------------------

  class ILState {
    var kT: real
    var rT: real
    var kHist: seq<real>
    var rHist: seq<real>
    var ktSlope2: real
    var turnIndex: int
    var cooldownActive: bool
    var cooldownTurnsLeft: int
    var cooldownExitK: real
    var cooldownMinTurns: int
    var lastSegmentTurn: int
    var invariants: Checkpoint
    var traceHash: TraceHash
    /** The coherence estimator's token set of the previous non-blank turn. */
    var lastTokens: set<string>

    function Record(): StateRecord
      reads this
    {
      StateRecord(kT, rT, kHist, rHist, ktSlope2, turnIndex, cooldownActive, cooldownTurnsLeft,
                  cooldownExitK, cooldownMinTurns, lastSegmentTurn, invariants, traceHash)
    }

    /** `ILState()` with its defaults, and an empty estimator memory. */
    constructor ()
      ensures Record() == Initial() && lastTokens == {}
    {
      kT, rT, kHist, rHist, ktSlope2, turnIndex := 1.0, 0.0, [], [], 0.0, 0;
      cooldownActive, cooldownTurnsLeft, cooldownExitK, cooldownMinTurns := false, 0, 0.90, 2;
      lastSegmentTurn, invariants, traceHash := -10, NoCheckpoint, NoTrace;
      lastTokens := {};
    }

    /** `ILState(**fields)`, carrying the estimator memory `memory`. */
    constructor FromRecord(r: StateRecord, memory: set<string>)
      ensures Record() == r && lastTokens == memory
    {
      kT, rT, kHist, rHist, ktSlope2, turnIndex := r.kT, r.rT, r.kHist, r.rHist, r.ktSlope2, r.turnIndex;
      cooldownActive, cooldownTurnsLeft := r.cooldownActive, r.cooldownTurnsLeft;
      cooldownExitK, cooldownMinTurns := r.cooldownExitK, r.cooldownMinTurns;
      lastSegmentTurn, invariants, traceHash := r.lastSegmentTurn, r.invariants, r.traceHash;
      lastTokens := memory;
    }

    /** `update_state`: one turn. */
    method UpdateState(text: string) returns (m: TurnMetrics)
      modifies this`turnIndex, this`kHist, this`rHist, this`ktSlope2, this`kT, this`rT, this`traceHash
      modifies this`cooldownTurnsLeft, this`cooldownActive, this`lastTokens
      ensures lastTokens == EstimateCoherence(text, old(lastTokens)).tokens
      ensures kT == EstimateCoherence(text, old(lastTokens)).k && rT == EstimateRecursion(text)
      ensures turnIndex == old(turnIndex) + 1
      ensures kHist == LastN(old(kHist) + [kT], HistoryCap) && rHist == LastN(old(rHist) + [rT], HistoryCap)
      ensures ktSlope2 == Slope2(kHist)
      ensures traceHash == TraceDigest(kHist, rHist, turnIndex)
      ensures cooldownTurnsLeft == if old(cooldownActive) then old(cooldownTurnsLeft) - 1 else old(cooldownTurnsLeft)
      ensures cooldownActive == (old(cooldownActive)
        && !(turnIndex - lastSegmentTurn >= cooldownMinTurns && cooldownTurnsLeft <= 0 && kT >= cooldownExitK))
      ensures m == TurnMetrics(turnIndex, kT, rT, ktSlope2, cooldownActive, traceHash)
    {
      var reading := EstimateCoherence(text, lastTokens);
      lastTokens := reading.tokens;
      var k := reading.k;
      var r := EstimateRecursion(text);
      RecordTurn(k, r);
      TickCooldown();
      m := TurnMetrics(turnIndex, kT, rT, ktSlope2, cooldownActive, traceHash);
    }

    /** The part of `update_state` that records the turn's K and R. */
    method RecordTurn(k: real, r: real)
      modifies this`turnIndex, this`kHist, this`rHist, this`ktSlope2, this`kT, this`rT, this`traceHash
      ensures turnIndex == old(turnIndex) + 1
      ensures kHist == LastN(old(kHist) + [k], HistoryCap) && rHist == LastN(old(rHist) + [r], HistoryCap)
      ensures ktSlope2 == Slope2(kHist) && kT == k && rT == r
      ensures traceHash == TraceDigest(kHist, rHist, turnIndex)
    {
      turnIndex := turnIndex + 1;
      kHist := kHist + [k];
      rHist := rHist + [r];

      kHist := LastN(kHist, HistoryCap);
      rHist := LastN(rHist, HistoryCap);

      if |kHist| >= 3 {
        ktSlope2 := (kHist[|kHist| - 1] - kHist[|kHist| - 3]) / 2.0;
      } else {
        ktSlope2 := 0.0;
      }

      kT := k;
      rT := r;

      traceHash := TraceDigest(kHist, rHist, turnIndex);
    }

    /** The part of `update_state` that counts COOLDOWN down and leaves it when all three exit conditions hold. */
    method TickCooldown()
      modifies this`cooldownTurnsLeft, this`cooldownActive
      ensures cooldownTurnsLeft == if old(cooldownActive) then old(cooldownTurnsLeft) - 1 else old(cooldownTurnsLeft)
      ensures cooldownActive == (old(cooldownActive)
        && !(turnIndex - lastSegmentTurn >= cooldownMinTurns && cooldownTurnsLeft <= 0 && kT >= cooldownExitK))
    {
      if cooldownActive {
        cooldownTurnsLeft := cooldownTurnsLeft - 1;
        var served := turnIndex - lastSegmentTurn >= cooldownMinTurns;
        if served && cooldownTurnsLeft <= 0 && kT >= cooldownExitK {
          cooldownActive := false;
        }
      }
    }

    /** `segment_now`: store the checkpoint lines and enter COOLDOWN. */
    method SegmentNow(buffer: seq<string>) returns (seed: SeedPack)
      modifies this`invariants, this`cooldownActive, this`cooldownTurnsLeft, this`lastSegmentTurn
      ensures invariants == Constraints(KeptLines(LastN(buffer, 8)))
      ensures cooldownActive && cooldownTurnsLeft == CooldownTurns && lastSegmentTurn == turnIndex
      ensures seed == SeedPack("LAST_RECOVERABLE_MOMENT", turnIndex, kT, rT, ktSlope2, invariants, traceHash)
    {
      invariants := ExtractInvariants(buffer);
      cooldownActive := true;
      cooldownTurnsLeft := CooldownTurns;
      lastSegmentTurn := turnIndex;
      seed := SeedPack("LAST_RECOVERABLE_MOMENT", turnIndex, kT, rT, ktSlope2, invariants, traceHash);
    }
  }

  // ------------------------------------------------------------------
  // The serialised interface (`il_update`, `il_segment`)
  // ------------------------------------------------------------------

  /** Values stored under the keys of a serialised state that are not `ILState` fields. */
  datatype Extra = MetricsEntry(metrics: TurnMetrics) | SegmentFlag(flag: bool) | OtherEntry

  /**
   * The `ILState` fields of a serialised state, `None` where the dictionary
   * has no such key (for `K_hist`, `R_hist` and `invariants`, also where it
   * holds null, which `__post_init__` replaces by an empty value).
   */
  datatype Fields = Fields(
    kT: Option<real>,
    rT: Option<real>,
    kHist: Option<seq<real>>,
    rHist: Option<seq<real>>,
    ktSlope2: Option<real>,
    turnIndex: Option<int>,
    cooldownActive: Option<bool>,
    cooldownTurnsLeft: Option<int>,
    cooldownExitK: Option<real>,
    cooldownMinTurns: Option<int>,
    lastSegmentTurn: Option<int>,
    invariants: Option<Checkpoint>,
    traceHash: Option<TraceHash>)

  /** A serialised state: its `ILState` fields, and every other key with its value. */
  datatype StateDoc = StateDoc(fields: Fields, extra: map<string, Extra>)

  /** The empty dictionary `{}`. */
  const NoFields := Fields(None, None, None, None, None, None, None, None, None, None, None, None, None)

  /** `asdict(state)` with the entries `extra` added. */
  function AsDoc(s: StateRecord, extra: map<string, Extra>): StateDoc {
    StateDoc(Fields(Some(s.kT), Some(s.rT), Some(s.kHist), Some(s.rHist), Some(s.ktSlope2), Some(s.turnIndex),
                    Some(s.cooldownActive), Some(s.cooldownTurnsLeft), Some(s.cooldownExitK), Some(s.cooldownMinTurns),
                    Some(s.lastSegmentTurn), Some(s.invariants), Some(s.traceHash)),
             extra)
  }

  /** The filter of `clean_state` only drops keys that start with `_`. */
  predicate PrivateKeysOnly(extra: map<string, Extra>) {
    forall key :: key in extra ==> StartsWith(key, "_")
  }

  /** Every field the dictionary gives is the field of `s`. */
  predicate GivenKept(f: Fields, s: StateRecord) {
    && (f.kT.Some? ==> s.kT == f.kT.value)
    && (f.rT.Some? ==> s.rT == f.rT.value)
    && (f.kHist.Some? ==> s.kHist == f.kHist.value)
    && (f.rHist.Some? ==> s.rHist == f.rHist.value)
    && (f.ktSlope2.Some? ==> s.ktSlope2 == f.ktSlope2.value)
    && (f.turnIndex.Some? ==> s.turnIndex == f.turnIndex.value)
    && (f.cooldownActive.Some? ==> s.cooldownActive == f.cooldownActive.value)
    && (f.cooldownTurnsLeft.Some? ==> s.cooldownTurnsLeft == f.cooldownTurnsLeft.value)
    && (f.cooldownExitK.Some? ==> s.cooldownExitK == f.cooldownExitK.value)
    && (f.cooldownMinTurns.Some? ==> s.cooldownMinTurns == f.cooldownMinTurns.value)
    && (f.lastSegmentTurn.Some? ==> s.lastSegmentTurn == f.lastSegmentTurn.value)
    && (f.invariants.Some? ==> s.invariants == f.invariants.value)
    && (f.traceHash.Some? ==> s.traceHash == f.traceHash.value)
  }

  /** Every field the dictionary lacks has its dataclass default in `s`. */
  predicate MissingDefaulted(f: Fields, s: StateRecord) {
    var d := Initial();
    && (f.kT.None? ==> s.kT == d.kT)
    && (f.rT.None? ==> s.rT == d.rT)
    && (f.kHist.None? ==> s.kHist == d.kHist)
    && (f.rHist.None? ==> s.rHist == d.rHist)
    && (f.ktSlope2.None? ==> s.ktSlope2 == d.ktSlope2)
    && (f.turnIndex.None? ==> s.turnIndex == d.turnIndex)
    && (f.cooldownActive.None? ==> s.cooldownActive == d.cooldownActive)
    && (f.cooldownTurnsLeft.None? ==> s.cooldownTurnsLeft == d.cooldownTurnsLeft)
    && (f.cooldownExitK.None? ==> s.cooldownExitK == d.cooldownExitK)
    && (f.cooldownMinTurns.None? ==> s.cooldownMinTurns == d.cooldownMinTurns)
    && (f.lastSegmentTurn.None? ==> s.lastSegmentTurn == d.lastSegmentTurn)
    && (f.invariants.None? ==> s.invariants == d.invariants)
    && (f.traceHash.None? ==> s.traceHash == d.traceHash)
  }

  /**
   * `ILState(**clean_state)`: the keys starting with `_` are dropped, any other
   * key that is not a field raises TypeError, and a missing field takes its default.
   */
  function Rebuild(doc: StateDoc): (r: Result<StateRecord>)
    ensures r.Err? <==> !PrivateKeysOnly(doc.extra)
    ensures r.Err? ==> r.error == "TypeError"
    ensures r.Ok? ==> GivenKept(doc.fields, r.value) && MissingDefaulted(doc.fields, r.value)
  {
    if !PrivateKeysOnly(doc.extra) then Err("TypeError")
    else
      var f := doc.fields;
      var d := Initial();
      Ok(StateRecord(f.kT.GetOr(d.kT), f.rT.GetOr(d.rT), f.kHist.GetOr(d.kHist), f.rHist.GetOr(d.rHist),
                     f.ktSlope2.GetOr(d.ktSlope2), f.turnIndex.GetOr(d.turnIndex),
                     f.cooldownActive.GetOr(d.cooldownActive), f.cooldownTurnsLeft.GetOr(d.cooldownTurnsLeft),
                     f.cooldownExitK.GetOr(d.cooldownExitK), f.cooldownMinTurns.GetOr(d.cooldownMinTurns),
                     f.lastSegmentTurn.GetOr(d.lastSegmentTurn), f.invariants.GetOr(d.invariants),
                     f.traceHash.GetOr(d.traceHash)))
  }

  /** Reloading what `asdict` wrote, with only `_` keys beside it, gives back the same state. */
  lemma RebuildAsDoc(s: StateRecord, extra: map<string, Extra>)
    requires PrivateKeysOnly(extra)
    ensures Rebuild(AsDoc(s, extra)) == Ok(s)
  {
  }

  /** `ILState(**{})` is the fresh state. */
  lemma RebuildEmpty()
    ensures Rebuild(StateDoc(NoFields, map[])) == Ok(Initial())
  {
  }

  /** A key that is neither a field nor `_`-prefixed is rejected whatever else the dictionary holds. */
  lemma RebuildUnknownKey(doc: StateDoc, key: string, v: Extra)
    requires !StartsWith(key, "_")
    ensures Rebuild(StateDoc(doc.fields, doc.extra[key := v])) == Err("TypeError")
  {
  }

  /** The `_metrics` and `_segment` entries that `il_update` adds. */
  function UpdateExtras(s: StateRecord): map<string, Extra> {
    map["_metrics" := MetricsEntry(MetricsOf(s)), "_segment" := SegmentFlag(ShouldSegment(s))]
  }

  /** The output of `il_update` is accepted as the input of the next call, and reloads as the state it holds. */
  lemma UpdateOutputReloads(s: StateRecord)
    ensures Rebuild(AsDoc(s, UpdateExtras(s))) == Ok(s)
  {
  }

  /** `il_update`: rebuild the state without the `_` keys, advance one turn, and report metrics and the trigger. */
  method IlUpdate(doc: StateDoc, memory: set<string>, text: string) returns (out: Result<StateDoc>, newMemory: set<string>)
    ensures out.Err? <==> Rebuild(doc).Err?
    ensures out.Err? ==> out.error == "TypeError" && newMemory == memory
    ensures out.Ok? ==>
      var s := Step(Rebuild(doc).value, EstimateCoherence(text, memory).k, EstimateRecursion(text));
      out.value == AsDoc(s, UpdateExtras(s)) && newMemory == EstimateCoherence(text, memory).tokens
  {
    var base := Rebuild(doc);
    if base.Err? {
      return Err(base.error), memory;
    }
    var st := new ILState.FromRecord(base.value, memory);
    var m := st.UpdateState(text);
    var rec := st.Record();
    StepByFields(base.value, EstimateCoherence(text, memory).k, EstimateRecursion(text), rec);
    out := Ok(AsDoc(rec, map["_metrics" := MetricsEntry(m), "_segment" := SegmentFlag(ShouldSegment(rec))]));
    newMemory := st.lastTokens;
  }

  /** What `il_segment` returns: the serialised state and the seed pack. */
  datatype Segmentation = Segmentation(state: StateRecord, seed: SeedPack)

  /** `il_segment`: rebuild the state without the `_` keys and take a checkpoint. */
  method IlSegment(doc: StateDoc, buffer: seq<string>) returns (r: Result<Segmentation>)
    ensures r.Err? <==> Rebuild(doc).Err?
    ensures r.Err? ==> r.error == "TypeError"
    ensures r.Ok? ==>
      && r.value.state == Segmented(Rebuild(doc).value, Constraints(KeptLines(LastN(buffer, 8))))
      && r.value.seed == SeedOf(r.value.state)
      && r.value.state.cooldownActive
      && r.value.state.kHist == Rebuild(doc).value.kHist && r.value.state.rHist == Rebuild(doc).value.rHist
  {
    var base := Rebuild(doc);
    if base.Err? {
      return Err(base.error);
    }
    var st := new ILState.FromRecord(base.value, {});
    var seed := st.SegmentNow(buffer);
    r := Ok(Segmentation(st.Record(), seed));
  }
}
