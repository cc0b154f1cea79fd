/**
 * The inflation core of the node store: a new text becomes a node whose
 * strength is damped when it repeats the previous node and otherwise grows
 * with the text's length. The timestamp the original attaches is left out.
 */
module ElyriaCore {
  import opened Base
  import opened PyText
  import opened Json

  datatype Node = Node(text: string, strength: real)

  /** Strength of a text that does not repeat the previous node: `min(1.0, 0.7 + len(text) / 200)`. */
  function FreshStrength(text: string): (s: real)
    ensures 0.7 <= s <= 1.0
    ensures s == 1.0 <==> |text| >= 60
    ensures |text| < 60 ==> s == 0.7 + |text| as real / 200.0
  {
    var grown := 0.7 + |text| as real / 200.0;
    if grown < 1.0 then grown else 1.0
  }

  /** Texts that are equal once stripped and lowercased. */
  predicate SameText(a: string, b: string) {
    Lower(Strip(a)) == Lower(Strip(b))
  }

  /**
   * `inflate`: a missing "text" key in the last history entry raises KeyError;
   * a non-string there has no `strip` and raises AttributeError.
   */
  function Inflate(text: string, history: seq<Record>): (r: Result<Node>)
    ensures history == [] ==> r == Ok(Node(text, 1.0))
    ensures r.Ok? ==> r.value.text == text && 0.5 <= r.value.strength <= 1.0
    ensures history != [] ==>
      (r == Err("KeyError") <==> "text" !in history[|history| - 1])
    ensures history != [] ==>
      (r == Err("AttributeError") <==> "text" in history[|history| - 1] && !history[|history| - 1]["text"].Str?)
    ensures history != [] && r.Ok? ==>
      var last := history[|history| - 1]["text"];
      last.Str? && (r.value.strength == if SameText(last.s, text) then 0.5 else FreshStrength(text))
  {
    if history == [] then Ok(Node(text, 1.0))
    else
      var entry := history[|history| - 1];
      if "text" !in entry then Err("KeyError")
      else if !entry["text"].Str? then Err("AttributeError")
      else if SameText(entry["text"].s, text) then Ok(Node(text, 0.5))
      else Ok(Node(text, FreshStrength(text)))
  }

  /** Only the last history entry is consulted. */
  lemma {:induction false} OnlyLastEntryMatters(text: string, earlier1: seq<Record>, earlier2: seq<Record>, last: Record)
    ensures Inflate(text, earlier1 + [last]) == Inflate(text, earlier2 + [last])
  {
    assert (earlier1 + [last])[|earlier1 + [last]| - 1] == last;
    assert (earlier2 + [last])[|earlier2 + [last]| - 1] == last;
  }

  /** Repeating the previous text, up to surrounding blanks and case, halves the strength. */
  lemma RepetitionDamps(text: string, history: seq<Record>)
    requires history != [] && "text" in history[|history| - 1]
    requires history[|history| - 1]["text"] == Str(Strip(text) + " ")
    ensures Inflate(text, history) == Ok(Node(text, 0.5))
  {
    StripTrailingSpace(Strip(text));
    StripIdempotent(text);
  }

  /** A new text of 60 characters or more gets full strength. */
  lemma LongTextFullStrength(text: string, history: seq<Record>)
    requires |text| >= 60
    requires history != [] && "text" in history[|history| - 1] && history[|history| - 1]["text"].Str?
    requires !SameText(history[|history| - 1]["text"].s, text)
    ensures Inflate(text, history) == Ok(Node(text, 1.0))
  {
  }
}
