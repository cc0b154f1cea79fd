/**
 * Stateless capabilities: a structural classification of the input, a
 * keyword intent, and a bounded word-prefix summary.
 */
module Capabilities {
  import opened Base
  import opened PyText

  const DefaultSummaryWords: int := 12

  /** `t.startswith(("please", "do ", "can you"))`. */
  predicate IsRequest(t: string) {
    StartsWith(t, "please") || StartsWith(t, "do ") || StartsWith(t, "can you")
  }

  /** The "type" of `classify`: empty, question, request or statement, tested in that order on the stripped text. */
  function Classify(text: string): (kind: string)
    ensures kind == "empty" <==> IsBlank(text)
    ensures kind == "question" <==> !IsBlank(text) && EndsWith(Strip(text), "?")
    ensures kind == "request" <==> !IsBlank(text) && !EndsWith(Strip(text), "?") && IsRequest(Lower(Strip(text)))
    ensures kind == "statement" <==> !IsBlank(text) && !EndsWith(Strip(text), "?") && !IsRequest(Lower(Strip(text)))
    ensures kind == "empty" || kind == "question" || kind == "request" || kind == "statement"
  {
    StripShape(text);
    var t := Strip(text);
    if t == [] then "empty"
    else if EndsWith(t, "?") then "question"
    else if IsRequest(Lower(t)) then "request"
    else "statement"
  }

  /** A question mark wins over a request prefix. */
  lemma QuestionBeatsRequest()
    ensures Classify("do it?") == "question"
  {
    var t := "do it?";
    assert StripLeft(t) == t;
    assert StripRight(t) == t;
  }

  /** `word in text.lower()`. */
  predicate Mentions(text: string, word: string) {
    Contains(Lower(text), word)
  }

  /** The "intent" of `extract_intent`: the first keyword found in the lowercased text wins. */
  function ExtractIntent(text: string): (intent: string)
    ensures intent == "explanation" <==> Mentions(text, "why")
    ensures intent == "procedure" <==> !Mentions(text, "why") && Mentions(text, "how")
    ensures intent == "decision_support" <==>
      (!Mentions(text, "why") && !Mentions(text, "how") && (Mentions(text, "should") || Mentions(text, "can i")))
    ensures intent == "unspecified" <==>
      (!Mentions(text, "why") && !Mentions(text, "how") && !Mentions(text, "should") && !Mentions(text, "can i"))
  {
    if Mentions(text, "why") then "explanation"
    else if Mentions(text, "how") then "procedure"
    else if Mentions(text, "should") || Mentions(text, "can i") then "decision_support"
    else "unspecified"
  }

  /** Intent detection ignores ASCII case. */
  lemma ExtractIntentCaseBlind(text: string)
    ensures ExtractIntent(Lower(text)) == ExtractIntent(text)
  {
    assert Lower(Lower(text)) == Lower(text);
  }

  /** "why" is checked before "how": a text with both is a request for explanation. */
  lemma WhyBeforeHow()
    ensures ExtractIntent("how and why") == "explanation"
  {
    var t := Lower("how and why");
    assert t == "how and why";
    ContainsAt(t, "why", 8);
  }

  /** The "summary" of `summarize`: the first `maxWords` whitespace tokens (Python slice semantics) joined by single spaces. */
  function Summarize(text: string, maxWords: int): (summary: string)
    ensures Split(summary) == SliceTo(Split(text), maxWords)
    ensures maxWords >= 0 ==> |Split(summary)| <= maxWords
    ensures maxWords >= |Split(text)| ==> Split(summary) == Split(text)
    ensures Join(Split(summary), " ") == summary
  {
    var words := Split(text);
    var kept := SliceTo(words, maxWords);
    SplitWords(text);
    assert forall k :: 0 <= k < |kept| ==> kept[k] == words[k];
    SplitJoin(kept);
    Join(kept, " ")
  }
}
