/**
 * Word-count analysis and reflection over stored nodes: the five most common
 * lowercased words, and a one-line reading of how dominant the top word is.
 */
module ElyriaIntelligence {
  import opened Base
  import opened PyText
  import opened Json
  import opened Counting

  /** `n["text"].lower().split()`: a node without "text" raises KeyError, a non-string one AttributeError. */
  function NodeWords(node: Record): (r: Result<seq<string>>)
    ensures r.Ok? <==> "text" in node && node["text"].Str?
    ensures r.Ok? ==> r.value == Split(Lower(node["text"].s))
  {
    if "text" !in node then Err("KeyError")
    else if !node["text"].Str? then Err("AttributeError")
    else Ok(Split(Lower(node["text"].s)))
  }

  /** The words of all nodes in order, or the error of the first node that has none. */
  function WordsOf(nodes: seq<Record>): (r: Result<seq<string>>)
    ensures r.Err? ==> r.error == "KeyError" || r.error == "AttributeError"
    decreases |nodes|
  {
    if nodes == [] then Ok([])
    else
      var init := WordsOf(nodes[..|nodes| - 1]);
      var last := NodeWords(nodes[|nodes| - 1]);
      if init.Err? then init
      else if last.Err? then Err(last.error)
      else Ok(init.value + last.value)
  }

  /** Collecting words fails exactly when some node has no string "text", and then with that node's error. */
  lemma {:induction false} WordsOfFails(nodes: seq<Record>)
    ensures WordsOf(nodes).Err? <==> exists i :: 0 <= i < |nodes| && NodeWords(nodes[i]).Err?
    ensures WordsOf(nodes).Err? ==>
      exists i :: 0 <= i < |nodes| && NodeWords(nodes[i]).Err? && WordsOf(nodes).error == NodeWords(nodes[i]).error
        && forall k :: 0 <= k < i ==> NodeWords(nodes[k]).Ok?
    decreases |nodes|
  {
    if nodes != [] {
      var init := nodes[..|nodes| - 1];
      WordsOfFails(init);
      assert forall i :: 0 <= i < |init| ==> init[i] == nodes[i];
    }
  }

  /** What `analyze` returns for a non-empty node list. */
  datatype Analysis = Analysis(totalNodes: nat, topWords: seq<(string, nat)>)

  /** The five most common words of `ws` with their counts. */
  function TopWords(ws: seq<string>): seq<(string, nat)> {
    MostCommon(Items(Tally(ws)), 5)
  }

  /** `analyze`: `None` stands for the empty dictionary returned on no nodes. */
  function AnalysisOf(nodes: seq<Record>): (r: Result<Option<Analysis>>)
    ensures r == Ok(None) <==> nodes == []
    ensures r.Ok? && r.value.Some? ==> r.value.value.totalNodes == |nodes| && |r.value.value.topWords| <= 5
  {
    if nodes == [] then Ok(None)
    else
      var ws := WordsOf(nodes);
      if ws.Err? then Err(ws.error)
      else Ok(Some(Analysis(|nodes|, TopWords(ws.value))))
  }

  method Analyze(nodes: seq<Record>) returns (r: Result<Option<Analysis>>)
    ensures r == AnalysisOf(nodes)
  {
    if |nodes| == 0 {
      return Ok(None);
    }
    var words: seq<string> := [];
    for i := 0 to |nodes|
      invariant WordsOf(nodes[..i]) == Ok(words)
    {
      var w := NodeWords(nodes[i]);
      assert nodes[..i + 1][..i] == nodes[..i];
      if w.Err? {
        ErrorPropagates(nodes, i + 1);
        return Err(w.error);
      }
      words := words + w.value;
    }
    assert nodes[..|nodes|] == nodes;
    var counts := Tally(words);
    r := Ok(Some(Analysis(|nodes|, MostCommon(Items(counts), 5))));
  }

  /** An error in a prefix of the nodes is the error of the whole list. */
  lemma {:induction false} ErrorPropagates(nodes: seq<Record>, i: nat)
    requires i <= |nodes| && WordsOf(nodes[..i]).Err?
    ensures WordsOf(nodes) == WordsOf(nodes[..i])
    decreases |nodes| - i
  {
    if i < |nodes| {
      assert nodes[..i + 1][..i] == nodes[..i];
      ErrorPropagates(nodes, i + 1);
    } else {
      assert nodes[..i] == nodes;
    }
  }

  /** At most five words are reported, and none only when there are no words. */
  lemma TopWordsSize(ws: seq<string>)
    ensures |TopWords(ws)| <= 5
    ensures |TopWords(ws)| == 0 <==> ws == []
  {
    if ws != [] {
      assert ws[0] in Tally(ws).keys;
    }
  }

  /** Each reported word occurs in the texts, with its exact count, and counts fall along the list. */
  lemma TopWordsCounts(ws: seq<string>)
    ensures var top := TopWords(ws);
      && (forall i :: 0 <= i < |top| ==> top[i].0 in ws && top[i].1 == Occurrences(ws, top[i].0))
      && (forall i, j :: 0 <= i < j < |top| ==> top[i].1 >= top[j].1)
  {
    var items := Items(Tally(ws));
    var top := TopWords(ws);
    MostCommonShape(items, 5);
    forall i | 0 <= i < |top| ensures top[i].0 in ws && top[i].1 == Occurrences(ws, top[i].0) {
      assert top[i] in multiset(items);
      var k :| 0 <= k < |items| && items[k] == top[i];
    }
  }

  /** The first reported word is a most frequent word. */
  lemma TopWordsDominant(ws: seq<string>)
    requires ws != []
    ensures var top := TopWords(ws);
      |top| > 0 && forall v :: v in ws ==> Occurrences(ws, v) <= top[0].1
  {
    var c := Tally(ws);
    var items := Items(c);
    TopWordsSize(ws);
    MostCommonShape(items, 5);
    forall v | v in ws ensures Occurrences(ws, v) <= TopWords(ws)[0].1 {
      var k :| 0 <= k < |c.keys| && c.keys[k] == v;
      assert items[k] == (v, Occurrences(ws, v));
    }
  }

  /** Analysis of a non-empty list reports every node and the top words of their texts. */
  lemma AnalysisShape(nodes: seq<Record>)
    requires nodes != [] && WordsOf(nodes).Ok?
    ensures AnalysisOf(nodes) == Ok(Some(Analysis(|nodes|, TopWords(WordsOf(nodes).value))))
  {
  }

  const NoSignal: string := "no signal yet"
  const StillForming: string := "signals are still forming"
  const Exploring: string := "exploration phase — no dominant signal yet"

  function Consolidating(word: string): string {
    "focus is consolidating around '" + word + "'"
  }

  function Emerging(word: string): string {
    "'" + word + "' is emerging as a theme"
  }

  /** `reflect`: how strongly the most common word dominates. */
  function Reflect(nodes: seq<Record>): (r: Result<string>)
    ensures nodes == [] ==> r == Ok(NoSignal)
    ensures r.Err? <==> AnalysisOf(nodes).Err?
    ensures nodes != [] && WordsOf(nodes) == Ok([]) ==> r == Ok(StillForming)
    ensures nodes != [] && WordsOf(nodes).Ok? && WordsOf(nodes).value != [] ==>
      var ws := WordsOf(nodes).value;
      var top := TopWords(ws)[0];
      r == Ok(if top.1 > 5 then Consolidating(top.0) else if top.1 > 2 then Emerging(top.0) else Exploring)
  {
    var intel := AnalysisOf(nodes);
    if intel.Err? then Err(intel.error)
    else if intel.value.None? then Ok(NoSignal)
    else
      var top := intel.value.value.topWords;
      TopWordsSize(WordsOf(nodes).value);
      if top == [] then Ok(StillForming)
      else
        var (dominant, strength) := top[0];
        if strength > 5 then Ok(Consolidating(dominant))
        else if strength > 2 then Ok(Emerging(dominant))
        else Ok(Exploring)
  }

  /** A word seen more than five times among the nodes makes the reflection a consolidation around the most frequent word. */
  lemma FrequentWordConsolidates(nodes: seq<Record>, w: string)
    requires nodes != [] && WordsOf(nodes).Ok? && Occurrences(WordsOf(nodes).value, w) > 5
    ensures var ws := WordsOf(nodes).value;
      Reflect(nodes) == Ok(Consolidating(TopWords(ws)[0].0))
      && forall v :: v in ws ==> Occurrences(ws, v) <= Occurrences(ws, TopWords(ws)[0].0)
  {
    var ws := WordsOf(nodes).value;
    OccurrencesPositive(ws, w);
    TopWordsDominant(ws);
    TopWordsCounts(ws);
  }

  /** With every word seen at most twice the reflection finds no dominant signal. */
  lemma RareWordsExplore(nodes: seq<Record>)
    requires nodes != [] && WordsOf(nodes).Ok? && WordsOf(nodes).value != []
    requires forall v :: v in WordsOf(nodes).value ==> Occurrences(WordsOf(nodes).value, v) <= 2
    ensures Reflect(nodes) == Ok(Exploring)
  {
    TopWordsSize(WordsOf(nodes).value);
    TopWordsCounts(WordsOf(nodes).value);
  }
}
