/**
 * Dry-run dispatch: describe, one sentence per capability and in order,
 * what executing the permitted capabilities would do.
 */
module Dispatch {
  import opened PyText

  const ExplainSentence: string := "System would generate an explanation based solely on explicit input."
  const NoopDescription: string := "No capabilities permitted for this intent."

  datatype Dispatched = Dispatched(status: string, description: string)

  /** The sentence for one capability: a fixed one for "explain", otherwise a message naming the capability. */
  function Describe(capability: string): (d: string)
    ensures capability == "explain" ==> d == ExplainSentence
    ensures capability != "explain" ==> StartsWith(d, "Capability '") && |d| > 12 + |capability| && d[12..12 + |capability|] == capability
  {
    if capability == "explain" then ExplainSentence
    else "Capability '" + capability + "' has no defined dispatch behavior."
  }

  function Descriptions(capabilities: seq<string>): (ds: seq<string>)
    ensures |ds| == |capabilities|
    ensures forall k :: 0 <= k < |ds| ==> ds[k] == Describe(capabilities[k])
  {
    seq(|capabilities|, k requires 0 <= k < |capabilities| => Describe(capabilities[k]))
  }

  method Dispatch(capabilities: seq<string>, text: string) returns (r: Dispatched)
    ensures capabilities == [] ==> r == Dispatched("noop", NoopDescription)
    ensures capabilities != [] ==> r == Dispatched("dry-run", Join(Descriptions(capabilities), " "))
  {
    if capabilities == [] {
      return Dispatched("noop", NoopDescription);
    }
    var descriptions: seq<string> := [];
    for i := 0 to |capabilities|
      invariant |descriptions| == i
      invariant forall k :: 0 <= k < i ==> descriptions[k] == Describe(capabilities[k])
    {
      if capabilities[i] == "explain" {
        descriptions := descriptions + [ExplainSentence];
      } else {
        descriptions := descriptions + ["Capability '" + capabilities[i] + "' has no defined dispatch behavior."];
      }
    }
    assert descriptions == Descriptions(capabilities);
    r := Dispatched("dry-run", Join(descriptions, " "));
  }

  /** Dispatching a concatenation describes the first list, a space, then the second: order and duplicates are kept. */
  lemma DescriptionsConcat(a: seq<string>, b: seq<string>)
    requires a != [] && b != []
    ensures Join(Descriptions(a + b), " ") == Join(Descriptions(a), " ") + " " + Join(Descriptions(b), " ")
  {
    assert Descriptions(a + b) == Descriptions(a) + Descriptions(b);
    JoinConcat(Descriptions(a), Descriptions(b), " ");
  }

  /** A single "explain" is described by exactly the explanation sentence. */
  lemma ExplainOnly()
    ensures Join(Descriptions(["explain"]), " ") == ExplainSentence
  {
    assert Descriptions(["explain"]) == [ExplainSentence];
  }
}
