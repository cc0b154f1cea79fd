# LLM coherence control plane: a verified Dafny model

This project models the governance pipeline of the "Elyria" control plane and
proves properties of the model. The pipeline has three layers:

- **Observation.** It observes each input text and measures its
  distinct-character entropy, keeping a window of the last ten readings.
- **Gates.** A chain of gates, each a pure decision, decides whether anything
  may act:
  - the confidence score;
  - the actuation threshold;
  - the intent-to-capability binding table;
  - the final execution binding, which is deny by default.
- **The intelligence layer.** It tracks coherence (K) and recursion (R)
  estimates across turns. It decides when to take a checkpoint, called a
  "segment", and it manages the COOLDOWN state that follows one.

The model also covers the Elyria command-line helpers:

- the node-strength inflation;
- the word-frequency analysis and reflection;
- the theme tokenizer, bigrams and top themes;
- previews, `--meta` parsing, the node-text choice and the lock-file path.

It also covers the small auxiliary modules:

- dry-run dispatch and the execution stub;
- the invariant auditor;
- the TTL memory store;
- the trend arrows;
- the dry-run actuation mapping.

One Dafny module models each core source file. A few shared modules support them:

- `Base` holds Option, Result, decision records and last/first-n slicing.
- `PyText` models the Python `str` builtins the code uses: `strip`, `lower`,
  `split`, `join`, `startswith`/`endswith`, `in`, `count` and `replace`.
- `Json` models parsed JSON values and Python truthiness.
- `Counting` models `collections.Counter`: `update` and `most_common`.

Code that changes state in place is modelled as classes with `modifies` frames:

- the entropy gate;
- the intelligence-layer state;
- the TTL store.

Loops become methods with invariants. Each such method is proved equal to a
specification function, and the properties are lemmas about that function:

- the invariant auditor;
- `extract_invariants`;
- `analyze`;
- `_tokenize`, `_bigrams` and `_top_themes`;
- the `--meta` loop;
- dispatch.

Inputs that the original reads from the outside world become parameters:

- the clock;
- the `ELYRIA_ENTROPY_MAX` environment variable;
- the JSON log files;
- the coherence estimator's hidden token memory.

## Model

| member | source | states |
|---|---|---|
| EntropyGate.IntelligenceGate.constructor | intelligence_gate.py:13-16 | an empty window, no constraints, zero identity pressure, and the configured ceiling |
| EntropyGate.IntelligenceGate.ExtractSignal | intelligence_gate.py:18-19 | the signal is never longer than the input, is empty exactly on blank input, and has no whitespace at either end |
| EntropyGate.IntelligenceGate.ExtractSignalIdempotent | intelligence_gate.py:18-19 | extracting the signal twice gives the same result as extracting it once |
| EntropyGate.IntelligenceGate.MeasureEntropy | intelligence_gate.py:21-25 | 0 on empty text; otherwise in (0,1], and entropy times length equals the number of distinct characters |
| EntropyGate.DistinctBound | intelligence_gate.py:24-25 | a text has between 1 and its length distinct characters, which keeps the ratio in (0,1] |
| EntropyGate.Mean | intelligence_gate.py:32-35 | the mean of a window of values in [0,1] lies in [0,1] |
| EntropyGate.SumBounds | intelligence_gate.py:33 | the sum of n values in [0,1] lies in [0,n] |
| EntropyGate.IntelligenceGate.Process | intelligence_gate.py:27-52 | new state and snapshot: the window is the last 10 readings of the whole history; the mean is in [0,1]; exactly "stabilize" is active iff the mean exceeds the ceiling; dampening is 0.7 while stabilizing, else 1.0 |
| EntropyGate.WindowStep | intelligence_gate.py:14 | trimming after every append is the same as trimming the whole history, and every value stays in [0,1] |
| EntropyGate.RepeatedInputWindow | intelligence_gate.py:14 | after n identical readings the window holds min(n,10) copies |
| EntropyGate.RepeatedInputMean | intelligence_gate.py:32-35 | a gate fed one text repeatedly reports that text's entropy as its mean |
| EntropyGate.MeanOfConstant | intelligence_gate.py:33 | a constant window has that constant as its mean |
| Confidence.ComputeConfidence | confidence.py:8-42 | the score is in [0,1]; it errors exactly when a given snapshot has a non-numeric mean or a constraints value that does not support `in`; with no snapshot it is 1 or 0 by the status; a non-clean status gives 0 |
| Confidence.HasStabilize | confidence.py:23 | `"stabilize" in v` succeeds iff v is a list, string or dict; for a list it tests membership; the default `[]` gives False |
| Confidence.MeanEntropyMonotone | confidence.py:32 | more mean entropy never raises the score |
| Confidence.StabilizeCostsTwoTenths | confidence.py:35-36 | with a clean status, "stabilize" costs exactly 0.2 |
| Confidence.OnlyTwoKeysRead | confidence.py:21-23 | keys other than "mean_entropy" and "active_constraints" do not affect the score |
| Confidence.MissingMeanEntropyIsZero | confidence.py:22 | a missing "mean_entropy" scores as 0 |
| Confidence.StatusWithoutKeyIsClean | confidence.py:25-26 | a status dictionary without "status" counts as clean |
| Confidence.NoInputsFullConfidence | confidence.py:16-19 | with no arguments the score is 1.0 |
| Confidence.SnapshotConfidence | confidence.py:21-36 | every gate snapshot is scored without error, by the formula 1 - 0.4·mean - 0.2·stabilize, and the score is at least 0.4 |
| ActuationThreshold.MayAct | actuation_threshold.py:11-47 | ALLOW iff the status is CLEAN, confidence ≥ threshold and the policy does not prohibit; each denial names the first check that failed |
| ActuationThreshold.ThresholdMonotone | actuation_threshold.py:30 | raising the threshold can only turn ALLOW into DENY |
| ActuationThreshold.PolicyWithoutAllowAction | actuation_threshold.py:38 | a policy without "allow_action" behaves like no policy |
| ActuationThreshold.FullConfidenceActs | actuation_threshold.py:8 | at the default 0.75 threshold, a clean status and full confidence are allowed iff the policy does not forbid |
| IntentBindings.AllowedCapabilities | intent_bindings.py:17-43 | at most ["explain"]; "explain" is granted iff the intent is explanation or question, the status is CLEAN and confidence ≥ 0.5; the reasons follow the check order; an unlisted intent gets nothing |
| IntentBindings.ConfidenceMonotone | intent_bindings.py:32 | more confidence never withdraws a capability, and only the "status" entry of the status is read |
| ExecutionBinding.MayExecute | execution_binding.py:8-39 | ALLOW iff mode is "execute", the operator approved and the capability list is non-empty; the denial reasons follow the check order |
| ExecutionBinding.DefaultsDeny | execution_binding.py:10-11 | the default arguments always deny |
| ExecutionStub.Execute | execution_stub.py:9-39 | any capability other than "explain" is DENIED; blank text is NOOP; otherwise EXECUTED with the fixed explanation |
| ExecutionStub.OnlyBlanknessMatters | execution_stub.py:23 | the output depends on the text only through whether it is blank |
| Dispatch.Describe | dispatch.py:22-29 | "explain" gets the fixed sentence; any other capability gets a sentence that starts "Capability '" and quotes it |
| Dispatch.Descriptions | dispatch.py:21-29 | one description per capability, in order |
| Dispatch.Dispatch | dispatch.py:8-34 | "noop" on an empty list; otherwise "dry-run" with the descriptions joined by spaces |
| Dispatch.DescriptionsConcat | dispatch.py:33 | dispatching a concatenation joins the two descriptions with a space, so order and duplicates are kept |
| Dispatch.ExplainOnly | dispatch.py:22-25 | a lone "explain" is described by exactly the explanation sentence |
| Capabilities.Classify | capabilities.py:8-22 | "empty" iff the text is blank; "question" iff the non-blank stripped text ends in "?", even with a request prefix; "request" iff the lowercased stripped text has a request prefix and no "?" ending; "statement" iff it is non-blank with neither, the fallback |
| Capabilities.QuestionBeatsRequest | capabilities.py:16-20 | the question test comes before the request test |
| Capabilities.ExtractIntent | capabilities.py:25-40 | each intent holds iff its keyword is found and no earlier keyword is |
| Capabilities.ExtractIntentCaseBlind | capabilities.py:29 | intent detection ignores ASCII case |
| Capabilities.WhyBeforeHow | capabilities.py:31-35 | a text containing both "how" and "why" is an explanation |
| Capabilities.Summarize | capabilities.py:43-50 | splitting the summary gives the first max_words words (Python slice semantics); at most max_words words; the summary is joined by single spaces |
| Intelligence.Reason | intelligence.py:16-46 | "no-input" with empty fields iff the text is blank; otherwise "ok" with the fixed analysis and response |
| Intelligence.ReasonIsFixed | intelligence.py:21-24 | neither the wording of a non-blank text nor the context changes the result |
| Intelligence.Route | intelligence.py:49-68 | type and intent are always those of classify and extract_intent; a summary is present iff "allow_summary" is truthy; an error arises only from a bad "summary_words" |
| Intelligence.SliceStop | intelligence.py:62-66 | `words[:stop]` accepts exactly None (the whole list), a bool or an int as the stop; anything else raises TypeError |
| Intelligence.SummaryStop | intelligence.py:65 | a context without "summary_words" gives the stop 12 |
| Intelligence.TwelveWordsByDefault | intelligence.py:65 | without "summary_words" the summary keeps twelve words |
| Intelligence.NullSummaryWordsKeepsAll | intelligence.py:65 | a "summary_words" of None keeps every word |
| Intelligence.ExecutionBranch | intelligence.py:134-156 | the first capability runs iff the execution binding allows; otherwise it is skipped with the binding's reason |
| Intelligence.DriverNeverExecutes | intelligence.py:134-138 | the driver's dry-run, no-approval arguments always skip execution |
| Intelligence.DriverBindings | intelligence.py:83-121 | the driver's confidence is 1.0 and act is allowed; "explain" is granted iff the text mentions "why" |
| Orchestrator.Route | orchestrator.py:9-46 | a missing or blank text gives "no-input"; otherwise the capabilities run on the stripped text |
| Orchestrator.RouteText | orchestrator.py:25-46 | classify and extract_intent always run, summarize runs iff "allow_summary" (default True) is truthy, in that order; it errors iff `int(summary_words)` raises |
| Orchestrator.ResultsMatchUsed | orchestrator.py:29-40 | the keys of "results" are exactly the names in "used" |
| Orchestrator.DefaultContextSummarises | orchestrator.py:36-40 | without a context, the summary keeps at most 12 words |
| Orchestrator.MissingTextIsNoInput | orchestrator.py:17 | a missing text routes like an empty one |
| Orchestrator.Trunc | orchestrator.py:38 | `int()` of a float truncates toward zero |
| Orchestrator.ParseInt | orchestrator.py:38 | `int(s)` succeeds iff the stripped string is an optional sign followed by one or more ASCII digits; otherwise ValueError; a negative value needs a leading "-" |
| Orchestrator.PyInt | orchestrator.py:38 | `int(v)`: an int is kept, a bool or float always converts, a string converts iff ParseInt does, and anything else raises |
| Orchestrator.ParseIntExamples | orchestrator.py:38 | `int(" 12 ")` is 12, `int("-3")` is -3, and `int("1.5")` raises |
| Invariants.Verify | invariants.py:32-61 | code 1 and no failures on no events; otherwise the failure list of every (event, predicate) pair; code 0 iff there are events and no failures, code 2 iff there are failures |
| Invariants.EveryPairEvaluated | invariants.py:40-46 | pair (i, k) is listed iff predicate k fails or raises on event i; a raise is recorded as "exception" |
| Invariants.FailuresOrdered | invariants.py:40-46 | failures are strictly ordered by (event, predicate), with at most five per event |
| Invariants.FailureMember | invariants.py:40-46 | membership of a failure over the first n events, by induction |
| Invariants.FailuresIncreasing | invariants.py:40-41 | the failures of the first n events are sorted |
| Invariants.FailuresBounds | invariants.py:40-41 | indices are below n; names are from the table |
| Invariants.EventFailureMember | invariants.py:41-46 | within one event, a predicate is listed iff it fails |
| Invariants.EventFailuresIncreasing | invariants.py:41 | one event's failures come in table order |
| Invariants.EventFailuresBounds | invariants.py:41 | among its first n predicates, one event has at most n failures; each carries that event's index and a predicate below n |
| Invariants.IncreasingConcat | invariants.py:44 | appending a list that comes later keeps the list ordered |
| Invariants.RuleIndex | invariants.py:11-17 | a position inside the table holds the name it was looked up by |
| Invariants.RuleIndexOfName | invariants.py:11-17 | the five predicate names are distinct |
| Invariants.Rule | invariants.py:11-17 | a non-dict event raises on every predicate except the `in` test, which raises only on values that are not containers; a dict never raises on the list check; a range predicate that holds found its key with a number in [0,1] |
| Invariants.InRange | invariants.py:12-14 | raises iff the subscript failed or is not a number; holds only inside [lo,1] (excluding lo when strict); is violated only outside it |
| Invariants.Has | invariants.py:15 | `key in e` raises iff e is not a dict, list or string; on a dict it holds iff the key is present |
| Invariants.ListValued | invariants.py:16 | raises iff e is not a dict (no `get`); a missing key is a violation |
| Invariants.GateRecordsPass | instrumentation.py:16-23 | every record logged for a gate snapshot with dampening in (0,1] passes all five predicates |
| Invariants.DampeningOutOfRange | invariants.py:14 | a record with dampening 1.5 fails exactly "dampening_range" |
| Invariants.NumberRecordRaises | invariants.py:12-16 | a non-dictionary record raises on every predicate |
| IntelligenceLayer.Clamp01 | intelligence_layer.py:45-46 | the result is in [0,1]; it is the identity inside the interval and clips outside it |
| IntelligenceLayer.Clamp01Monotone | intelligence_layer.py:45-46 | clamping is monotone |
| IntelligenceLayer.WordEnd | intelligence_layer.py:53 | the maximal run of word characters |
| IntelligenceLayer.RepeatAfter | intelligence_layer.py:53 | one `\s+\1\b` step consumes at least one whitespace character and the whole word |
| IntelligenceLayer.RepeatAt | intelligence_layer.py:53 | a match at position i needs at least five characters from i ("w w w") |
| IntelligenceLayer.HasTripleRepeat | intelligence_layer.py:53-57 | `_RE_REPEAT.search` can succeed only on a text of five or more characters |
| IntelligenceLayer.SelfReferences | intelligence_layer.py:58 | the marker count is 0 iff none of "again", "repeat", "as i said" occurs |
| IntelligenceLayer.TripleRepeatExample | intelligence_layer.py:53 | "go go go" matches the repeat pattern and "go go" does not |
| IntelligenceLayer.EstimateRecursion | intelligence_layer.py:55-59 | the result is in [0,1]; it is at least 0.6 on a tripled word; it is 0 iff there is no tripled word and no self-reference marker |
| IntelligenceLayer.SoftPenalty | intelligence_layer.py:74 | the penalty is in [0,0.15]; 0 with no overlap; 0.15 from 20 shared tokens on |
| IntelligenceLayer.EstimateCoherence | intelligence_layer.py:62-78 | K is in [0,1]; blank text gives 0 and keeps the memory; otherwise the memory becomes this text's token set; a tripled word caps K at 0.8 |
| IntelligenceLayer.OverlapPenaltyBounded | intelligence_layer.py:69-76 | the previous turn's tokens change K by at most 0.15 |
| IntelligenceLayer.Recorded | intelligence_layer.py:89-109 | the first half of a turn: the counter increases by one, K_t and R_t are the readings, the histories stay capped at six, and the COOLDOWN fields and checkpoint are left alone |
| IntelligenceLayer.Tick | intelligence_layer.py:111-115 | the second half of a turn never enters COOLDOWN, changes nothing outside COOLDOWN, and leaves the histories, counter and readings alone |
| IntelligenceLayer.Step | intelligence_layer.py:85-115 | one turn keeps both histories at six entries or fewer (its full effect is StepCounterAndScalars, StepHistories, StepSlope and StepCooldown) |
| IntelligenceLayer.StepByFields | intelligence_layer.py:85-115 | a state agreeing field by field with one turn's effect is that turn's Step |
| IntelligenceLayer.StepCounterAndScalars | intelligence_layer.py:89-102 | the turn counter increases by one, K_t and R_t are the new estimates and the last history entries, and the exit thresholds, last segment turn and checkpoint lines are unchanged |
| IntelligenceLayer.StepHistories | intelligence_layer.py:90-94 | each history is the last six of the old history plus the new reading |
| IntelligenceLayer.StepSlope | intelligence_layer.py:96-99 | the slope is (K[-1] - K[-3]) / 2 with three or more entries, else 0 |
| IntelligenceLayer.StepCooldown | intelligence_layer.py:111-115 | an update never enters COOLDOWN; it leaves only when served, no turns are left and K has recovered |
| IntelligenceLayer.StepTraceHash | intelligence_layer.py:104-109 | equal histories and turn counters give equal trace hashes; the converse holds only of the symbolic digest (a truncated SHA-256 can collide) |
| IntelligenceLayer.FreshTwoUpdates | intelligence_layer.py:96-99 | two updates on a fresh state leave two entries and a zero slope |
| IntelligenceLayer.KsOf | intelligence_layer.py:90 | the K components of a reading sequence, in order |
| IntelligenceLayer.RunInvariants | intelligence_layer.py:85-115 | over any run of turns: the counter counts turns, K_hist is the last six readings, COOLDOWN is never entered, and the histories stay at six entries or fewer |
| IntelligenceLayer.ShouldSegment | intelligence_layer.py:127-145 | a trigger needs R > 0.8; in COOLDOWN it also needs slope < -0.30; outside COOLDOWN the acceleration trigger suffices |
| IntelligenceLayer.SegmentationExamples | intelligence_layer.py:131-143 | sustained saturation triggers; in COOLDOWN a slope of -0.20 does not |
| IntelligenceLayer.CooldownStricter | intelligence_layer.py:141-145 | COOLDOWN only makes segmentation harder |
| IntelligenceLayer.KeptLines | intelligence_layer.py:150-152 | the kept lines are stripped, marked lines, no more numerous than the input (their origin and order: KeptLinesMembers, KeptLinesOrdered) |
| IntelligenceLayer.StrippedLines | intelligence_layer.py:151-152 | each line with `strip()` applied, position by position |
| IntelligenceLayer.KeptLinesMembers | intelligence_layer.py:150-152 | a line is kept iff it is the stripped form of some input line and starts with "-" or "#" |
| IntelligenceLayer.KeptLineSource | intelligence_layer.py:150-152 | every kept line is the stripped, marked form of an input line at a definite position |
| IntelligenceLayer.MarkedLineKept | intelligence_layer.py:151-152 | every input line whose stripped form is marked is kept |
| IntelligenceLayer.KeptLinesOrdered | intelligence_layer.py:150-152 | the kept lines are an order-preserving subsequence of the stripped input lines |
| IntelligenceLayer.KeptFromRecent | intelligence_layer.py:150-152 | a checkpoint line is the stripped form of one of the last eight buffer lines |
| IntelligenceLayer.RecentKept | intelligence_layer.py:150-152 | a marked line among the last eight buffer lines is in the checkpoint |
| IntelligenceLayer.CheckpointLines | intelligence_layer.py:148-153 | x is a checkpoint line iff some buffer line among the last eight strips to x and x is marked |
| IntelligenceLayer.ExtractInvariants | intelligence_layer.py:148-153 | the loop returns the kept lines of the last eight buffer lines, so by CheckpointLines and KeptLinesOrdered exactly the stripped marked lines among them, in order; at most eight, so the cap of 10 never cuts |
| IntelligenceLayer.SegmentedEffect | intelligence_layer.py:156-160 | a segment enters COOLDOWN for two turns at the current turn and leaves signals and histories unchanged |
| IntelligenceLayer.NoExitOnFirstTurnAfterSegment | intelligence_layer.py:111-115 | with the default minimum of two turns, the turn after a segment stays in COOLDOWN |
| IntelligenceLayer.ILState.constructor | intelligence_layer.py:14-38 | the dataclass defaults and an empty estimator memory |
| IntelligenceLayer.ILState.FromRecord | intelligence_layer.py:184 | `ILState(**fields)` reproduces the given fields |
| IntelligenceLayer.ILState.UpdateState | intelligence_layer.py:85-124 | the new fields are those of Step on the estimates; the metrics report the new state |
| IntelligenceLayer.ILState.RecordTurn | intelligence_layer.py:89-109 | the counter, histories, slope, K, R and trace hash after a turn |
| IntelligenceLayer.ILState.TickCooldown | intelligence_layer.py:111-115 | the COOLDOWN countdown and its three-condition exit |
| IntelligenceLayer.ILState.SegmentNow | intelligence_layer.py:156-170 | stores the checkpoint, enters COOLDOWN for two turns, and returns the seed pack |
| IntelligenceLayer.IlUpdate | intelligence_layer.py:181-191 | TypeError (and no estimator update) iff a key outside the fields does not start with "_"; otherwise the rebuilt state, missing fields defaulted, advances by one Step and the output is its `asdict` plus the metrics and the segment flag |
| IntelligenceLayer.IlSegment | intelligence_layer.py:194-200 | TypeError iff a key outside the fields does not start with "_"; otherwise the rebuilt state, missing fields defaulted, takes a checkpoint of the buffer and keeps its histories; the seed pack reports the new state |
| IntelligenceLayer.Rebuild | intelligence_layer.py:14-38 | `ILState(**clean_state)` of lines 183-184 and 196-197: TypeError iff some non-field key does not start with "_"; otherwise every given field is kept and every missing one takes its dataclass default |
| IntelligenceLayer.RebuildAsDoc | intelligence_layer.py:183-184 | reloading an `asdict` dump beside `_` keys gives back the same state |
| IntelligenceLayer.RebuildEmpty | intelligence_layer.py:14-38 | `ILState(**{})` is the fresh state, so `il_update({}, t)` updates a fresh state |
| IntelligenceLayer.RebuildUnknownKey | intelligence_layer.py:183-184 | one unknown key not starting with "_" makes reconstruction raise TypeError |
| IntelligenceLayer.UpdateOutputReloads | intelligence_layer.py:187-191 | the output of `il_update` is accepted by the next call and reloads as the state it holds |
| MemoryTtl.MemoryStore.constructor | memory_ttl.py:10-11 | the store starts empty |
| MemoryTtl.MemoryStore.Write | memory_ttl.py:13-22 | appends one entry that expires ttl seconds after now |
| MemoryTtl.MemoryStore.Read | memory_ttl.py:24-30 | purges the expired entries, and returns exactly the live ones |
| MemoryTtl.MemoryStore.Clear | memory_ttl.py:32-36 | the store becomes empty |
| MemoryTtl.UnexpiredMembers | memory_ttl.py:29 | an entry survives a read iff it was stored and expires after now |
| MemoryTtl.UnexpiredConcat | memory_ttl.py:29 | purging distributes over concatenation, so order is kept |
| MemoryTtl.UnexpiredLater | memory_ttl.py:29 | a read at t1 then a read at a later t2 equals one read at t2; reading twice at once is idempotent |
| MemoryTtl.FreshEntryVisible | memory_ttl.py:17-29 | an entry written with a positive TTL is visible to an immediate read |
| Observability.Trend | observability.py:28-35 | "→" for fewer than two values; "↑" iff last > first; "↓" iff last < first; "→" iff they are equal |
| Observability.TrendIgnoresMiddle | observability.py:31-34 | only the first and last values matter |
| Observability.TrendReversed | observability.py:31-34 | reversing the values swaps "↑" and "↓" |
| Actuation.SimulateAction | actuation.py:9-18 | each action is returned iff its phrase is found and no earlier phrase is; "UNKNOWN RECOMMENDATION" iff no phrase occurs |
| Actuation.ConsiderLoweringActs | policy.py:50 | "consider lowering ENTROPY_MAX" gives the ceiling-decrease simulation |
| Actuation.FrequentlyStabilizingActs | policy.py:53 | the stabilizing recommendation gives the flag-inputs simulation |
| Actuation.OverConstrainedActs | policy.py:56 | the over-constrained recommendation gives the relax-dampening simulation |
| Actuation.WithinBoundsActs | policy.py:59 | the within-bounds recommendation gives NO ACTION |
| Actuation.NoDataIsUnknown | policy.py:36 | the no-data recommendation gives UNKNOWN |
| ElyriaCore.FreshStrength | elyria_cp/core.py:17 | a non-repeated text has strength min(1, 0.7 + len/200) in [0.7,1], equal to 1 iff len ≥ 60 |
| ElyriaCore.Inflate | elyria_cp/core.py:3-23 | empty history gives strength 1; the text is kept and the strength is in [0.5,1]; a missing "text" raises KeyError and a non-string raises AttributeError; the strength is 0.5 iff the last text matches ignoring case and surrounding space |
| ElyriaCore.OnlyLastEntryMatters | elyria_cp/core.py:13 | only the last history entry affects the result |
| ElyriaCore.RepetitionDamps | elyria_cp/core.py:14-15 | repeating the last text (with extra whitespace) gives 0.5 |
| ElyriaCore.LongTextFullStrength | elyria_cp/core.py:16-17 | a new text of 60 or more characters gets strength 1 |
| ElyriaIntelligence.NodeWords | elyria_cp/intelligence.py:9 | a node yields words iff it has a string "text"; the words are those of the lowercased split |
| ElyriaIntelligence.WordsOf | elyria_cp/intelligence.py:7-9 | the collected words, or a KeyError / AttributeError raised by a node |
| ElyriaIntelligence.WordsOfFails | elyria_cp/intelligence.py:8-9 | collecting words fails iff some node fails, with the first failing node's error |
| ElyriaIntelligence.Analyze | elyria_cp/intelligence.py:3-16 | the loop computes AnalysisOf: None for no nodes, the error of the first bad node, otherwise the node count and the top five words |
| ElyriaIntelligence.AnalysisOf | elyria_cp/intelligence.py:3-16 | the empty result iff there are no nodes; otherwise the node count and at most five top words |
| ElyriaIntelligence.ErrorPropagates | elyria_cp/intelligence.py:8-9 | an error in a prefix is the error of the whole |
| ElyriaIntelligence.TopWordsSize | elyria_cp/intelligence.py:15 | at most five words; none iff there are no words |
| ElyriaIntelligence.TopWordsCounts | elyria_cp/intelligence.py:11-15 | each reported word occurs with exactly its count, and the counts are non-increasing |
| ElyriaIntelligence.TopWordsDominant | elyria_cp/intelligence.py:27 | the first reported word has the highest count of all words |
| ElyriaIntelligence.AnalysisShape | elyria_cp/intelligence.py:13-16 | a non-empty, well-formed node list gives its size and top words |
| ElyriaIntelligence.Reflect | elyria_cp/intelligence.py:18-34 | no nodes → "no signal yet"; errors iff analyze raises; no words → "signals are still forming"; otherwise the top word's count decides consolidating (> 5), emerging (> 2) or exploration |
| ElyriaIntelligence.FrequentWordConsolidates | elyria_cp/intelligence.py:29-30 | a word occurring more than five times makes reflection "consolidating" around the dominant word |
| ElyriaIntelligence.RareWordsExplore | elyria_cp/intelligence.py:33-34 | when no word occurs more than twice, reflection is the exploration phase |
| ElyriaThemes.TokenPrefix | elyria_cp/app.py:267 | the maximal leading run of `[a-z0-9']` characters |
| ElyriaThemes.Runs | elyria_cp/app.py:267 | every run findall returns is a non-empty token of `[a-z0-9']` |
| ElyriaThemes.Tokenize | elyria_cp/app.py:266-283 | the loop returns exactly the kept runs of the lowercased text |
| ElyriaThemes.KeptMembers | elyria_cp/app.py:269-282 | a word is kept iff it is a run and passes every filter |
| ElyriaThemes.KeptSubsequence | elyria_cp/app.py:269-282 | the output is an order-preserving subsequence of the runs |
| ElyriaThemes.Kept | elyria_cp/app.py:269-282 | the filtered tokens are no more numerous than the runs |
| ElyriaThemes.TokensFiltered | elyria_cp/app.py:270-281 | every output token is a run of length ≥ min_len, not in STOP_BASE or extra_stop, not all digits, and not an alphabet run |
| ElyriaThemes.Bigrams | elyria_cp/app.py:285-292 | the loop returns exactly BigramsOf(words) |
| ElyriaThemes.BigramsOf | elyria_cp/app.py:285-292 | no more bigrams than words, and none for fewer than two words |
| ElyriaThemes.BigramSource | elyria_cp/app.py:288-291 | every bigram has a definite adjacent pair of different words it joins |
| ElyriaThemes.BigramsCount | elyria_cp/app.py:287 | at most max(0, n-1) bigrams |
| ElyriaThemes.BigramsAdjacent | elyria_cp/app.py:288-291 | every bigram is "a b" for some adjacent pair with a ≠ b |
| ElyriaThemes.BigramsPrefix | elyria_cp/app.py:287-291 | the bigrams of a prefix are a prefix of the bigrams, so order is kept |
| ElyriaThemes.Dedup | elyria_cp/app.py:308-309 | distinct elements with exactly the input's members |
| ElyriaThemes.ThemeCounters | elyria_cp/app.py:302-312 | both counters stay well formed |
| ElyriaThemes.TopThemes | elyria_cp/app.py:294-313 | the loop returns the most common n of the two counters ThemeCounters describes |
| ElyriaThemes.TextsWith | elyria_cp/app.py:307-309 | the number of texts yielding a theme is at most the number of texts |
| ElyriaThemes.DedupOccurrences | elyria_cp/app.py:308-309 | a set counts each member once |
| ElyriaThemes.PresenceCounts | elyria_cp/app.py:307-309 | in presence mode a theme's count is the number of texts yielding it, so at most the number of texts |
| ElyriaThemes.CountingTotals | elyria_cp/app.py:310-312 | outside presence mode a theme's count is its total number of occurrences |
| ElyriaThemes.TopThemesBounds | elyria_cp/app.py:313 | at most n entries per list; in presence mode every reported count is at most the number of texts |
| ElyriaThemes.ReportedPair | elyria_cp/app.py:313 | a reported pair carries its theme's counter value |
| ElyriaApp.FirstUsable | elyria_cp/app.py:115-118 | the value of the first key holding a non-blank string; None iff there is none |
| ElyriaApp.NodeText | elyria_cp/app.py:111-120 | a string is returned unchanged; a dict gives the first non-blank string among text, content, message, prompt, raw, input, else its JSON dump; anything else its `str` |
| ElyriaApp.TextKeyWins | elyria_cp/app.py:115-118 | a non-blank "text" is always chosen |
| ElyriaApp.BlankTextFallsThrough | elyria_cp/app.py:117 | a blank or non-string "text" falls through to "content" |
| ElyriaApp.Preview | elyria_cp/app.py:403-405 | at most limit characters; no newline; unchanged when the one-line text fits; otherwise its first limit-3 characters plus "..." |
| ElyriaApp.ListPreview | elyria_cp/app.py:403-405 | at most 120 characters, unchanged when the text already fits |
| ElyriaApp.SearchPreview | elyria_cp/app.py:447-449 | at most 140 characters, unchanged when the text already fits |
| ElyriaApp.PreviewIdempotent | elyria_cp/app.py:403-405 | previewing a preview changes nothing |
| ElyriaApp.CleanTextUnchanged | elyria_cp/app.py:403-405 | a short, single-line, stripped text is shown as it is |
| ElyriaApp.FirstEq | elyria_cp/app.py:361 | the position of the first "=" |
| ElyriaApp.MetaEntry | elyria_cp/app.py:360-364 | a value string iff the item holds "="; a bare item maps its stripped self to True |
| ElyriaApp.MetaEntrySplit | elyria_cp/app.py:361-362 | `before=after` with no "=" in `before` gives the stripped sides |
| ElyriaApp.MetaKeyHasNoEquals | elyria_cp/app.py:361-364 | no key holds "=" |
| ElyriaApp.ParseMeta | elyria_cp/app.py:358-364 | the loop builds exactly MetaOf(items) |
| ElyriaApp.MetaOf | elyria_cp/app.py:358-364 | the dictionary has no more keys than there are items |
| ElyriaApp.MetaKeySource | elyria_cp/app.py:359-364 | every key comes from a definite item |
| ElyriaApp.MetaKeyPresent | elyria_cp/app.py:359-364 | every item's key is in the dictionary |
| ElyriaApp.MetaDomain | elyria_cp/app.py:359-364 | the keys of the result are exactly the items' keys |
| ElyriaApp.MetaLastWins | elyria_cp/app.py:362-364 | the last item naming a key decides its value |
| ElyriaApp.MetaKeysHaveNoEquals | elyria_cp/app.py:362-364 | no key of the result contains "=" |
| ElyriaApp.RFind | elyria_cp/app.py:91 | the last occurrence of a character, or -1 iff it is absent |
| ElyriaApp.Suffix | elyria_cp/app.py:91 | the suffix is empty, or a tail of the name that starts with "." and has no other dot |
| ElyriaApp.WithSuffix | elyria_cp/app.py:91 | it errors iff the suffix holds "/", does not start with ".", is ".", or the name is empty; otherwise it replaces the old suffix |
| ElyriaApp.LockfileFor | elyria_cp/app.py:90-91 | the lock path is the store path with ".lock" appended to the name; it errors iff the name is empty |
| ElyriaApp.LockSuffix | elyria_cp/app.py:90-91 | the lock file's own suffix is ".lock" |
| Counting.Tally | elyria_cp/intelligence.py:11 | `Counter(words)` counts every word by its occurrences, and its keys are exactly the words |
| Counting.Update | elyria_cp/app.py:308-312 | `update` keeps the counter well formed, and the old keys are a prefix of the new ones |
| Counting.UpdateCount | elyria_cp/app.py:308-312 | `update` adds each word's occurrences to its count |
| Counting.UpdateConcat | elyria_cp/app.py:308-312 | updating with a concatenation is two updates |
| Counting.Add | elyria_cp/app.py:308-312 | one increment: that count +1, the others unchanged, and a new key is appended |
| Counting.Items | elyria_cp/app.py:313 | the (key, count) pairs in insertion order, with positive counts |
| Counting.Insert | elyria_cp/app.py:313 | inserting keeps the list sorted descending and is a permutation |
| Counting.SortDescending | elyria_cp/app.py:313 | the stable descending sort is a sorted permutation |
| Counting.MostCommon | elyria_cp/app.py:313 | `most_common(n)`: [] for n ≤ 0; min(n, len) entries; a prefix of the descending order |
| Counting.MostCommonShape | elyria_cp/app.py:313 | the reported pairs are drawn from the items, non-increasing, and the first is a maximum |
| Counting.MostCommonMaximal | elyria_cp/app.py:313 | an unreported item never outranks the last reported one |
| Counting.OccurrencesConcat | elyria_cp/app.py:311-312 | occurrences add over concatenation |
| Counting.OccurrencesPositive | elyria_cp/intelligence.py:11 | a word occurs iff it is a member |
| Counting.DistinctOccurrences | elyria_cp/app.py:308-309 | a distinct list holds each word at most once |
| PyText.StripShape | capabilities.py:12 | `strip` is empty iff the input is blank; otherwise it starts and ends with a non-space |
| PyText.StripIdempotent | intelligence_gate.py:19 | stripping twice is stripping once |
| PyText.Count | intelligence_layer.py:58 | `str.count` is positive iff the pattern occurs in the text |
| PyText.ReplaceChar | elyria_cp/app.py:403 | `replace` of one character: same length, each matching character replaced |
| PyText.JoinSplitIdempotent | capabilities.py:47-49 | re-splitting a space-joined split gives the same words |

## Left out

- **I/O, clocks and the environment** are parameters or are omitted:
  - the JSON line logs read by `load_events` and `load_nodes`, which arrive already parsed;
  - `time.time()` and `datetime.now`, which become explicit `now` or timestamp arguments, or are dropped;
  - `os.getenv("ELYRIA_ENTROPY_MAX")`, which becomes a constructor argument;
  - `uuid4` ids.
- **The remaining `elyria_cp/app.py` code is not part of this model:**
  - the file store, the `fcntl` lock, repair;
  - the typer commands;
  - `importlib` discovery;
  - everything that prints.

  These are filesystem and OS plumbing. So is `instrumentation.record`'s file append: only the record it builds is modelled.
- **Modules outside the core are not part of this model:** `calibration.py`, `capture.py`, `covenant.py`, `metrics.py`, `reflection.py`, `stress.py`, the files under `experiments/`, the report printing in `policy.py`, and the summary printing in `observability.py`.
- **Rounding and special floats.** `round(x, 3)` and `round(x, 4)` are not modelled. Reals are exact, and Python floats are exact reals here. `Json.Value` cannot hold the NaN and ±Infinity that `json.loads` accepts; a NaN field would fail every range predicate of the invariant table.
- **Case and character classes.** `lower()` is ASCII only. The regex `\w` and the `[a-z0-9']` class are over ASCII. Unicode case mapping is not modelled.
- **SHA-256.** `trace_hash` is a collision-free symbolic digest of (K history, R history, turn). The hex truncation to 16 characters is not modelled.
- IntelligenceLayer.StepTraceHash: the direction "equal hashes imply equal histories" is a property of the symbolic digest only. The 16-hex-digit truncated SHA-256 of the original can collide.
- IntelligenceLayer.IlUpdate: the original appends the new K and R to the input dictionary's own `K_hist` and `R_hist` lists, which the rebuilt state shares, before rebinding the state to trimmed copies; the model takes the document by value, so that lengthening of the caller's lists is not captured.
- IntelligenceLayer.Rebuild: fields are typed. A field given with a value of the wrong type, or an explicit null for a field other than `K_hist`, `R_hist` and `invariants`, is not modelled. Python accepts those and fails later, if at all.
- **The hidden estimator memory.** `estimate_coherence._last_tokens` is an explicit field or parameter.
- **Set and dict iteration order.** Sets iterate in first-occurrence order: `set(w)` in the presence mode of `_top_themes`, and the gate's constraint list. The `--meta` dict is a `map`, so its insertion order is not modelled.
- ElyriaApp.NodeText: the JSON and `str()` renderings of the fallback are symbolic (`JsonDump`, `Repr`). It does not model their text.
- Dispatch.Describe: for an unknown capability it states only that the sentence starts with "Capability '" and quotes the name. The fixed tail of the sentence is in the body, not in the contract.
- Counting.MostCommon: among equal counts, keys keep insertion order, which is CPython's documented tie order. The contract states the descending prefix, and it does not state the tie order as a separate property.
- ElyriaApp.LockfileFor: `pathlib` suffix rules are modelled as in CPython 3.11 and 3.12. A name with a trailing dot has no suffix.
- Orchestrator.ParseInt: it accepts only ASCII digits with an optional sign and surrounding whitespace. Underscores and Unicode digits are not modelled.
