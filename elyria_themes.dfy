/**
 * Theme extraction of the node store: a regex tokeniser with stop words and
 * noise filters, adjacent-word bigrams, and the most common unigrams and
 * bigrams over a list of texts.
 */
module ElyriaThemes {
  import opened Base
  import opened PyText
  import opened Counting
  import EntropyGate

  /** Words never reported as themes. */
  const StopBase: set<string> := {
    "a", "an", "the", "and", "or", "but", "if", "then", "so", "to", "of", "in", "on", "for", "with",
    "is", "are", "was", "were", "be", "been", "being", "this", "that", "these", "those", "it", "its",
    "i", "you", "we", "they", "he", "she", "them", "us", "my", "your", "our", "their", "as", "at", "by"
  }

  const DefaultMinLen: int := 3
  const DefaultThemeCount: int := 50

  /** The character class `[a-z0-9']`. */
  predicate TokenChar(c: char) {
    ('a' <= c <= 'z') || ('0' <= c <= '9') || c == '\''
  }

  /** The longest prefix of token characters. */
  function TokenPrefix(s: string): (w: string)
    ensures |w| <= |s| && w == s[..|w|]
    ensures forall k :: 0 <= k < |w| ==> TokenChar(w[k])
    ensures |w| < |s| ==> !TokenChar(s[|w|])
    decreases |s|
  {
    if |s| > 0 && TokenChar(s[0]) then [s[0]] + TokenPrefix(s[1..]) else []
  }

  /** A match of `[a-z0-9']+`. */
  predicate IsToken(w: string) {
    |w| > 0 && forall k :: 0 <= k < |w| ==> TokenChar(w[k])
  }

  /** `re.findall(r"[a-z0-9']+", s)`: the maximal runs of token characters, left to right. */
  function Runs(s: string): (runs: seq<string>)
    ensures forall i :: 0 <= i < |runs| ==> IsToken(runs[i])
    decreases |s|
  {
    if s == [] then []
    else if !TokenChar(s[0]) then Runs(s[1..])
    else
      var w := TokenPrefix(s);
      [w] + Runs(s[|w|..])
  }

  /** `str.isdigit()` on a token. */
  predicate AllDigits(w: string) {
    |w| > 0 && forall k :: 0 <= k < |w| ==> '0' <= w[k] <= '9'
  }

  /** `str.isalpha()` on a token. */
  predicate AllLetters(w: string) {
    |w| > 0 && forall k :: 0 <= k < |w| ==> 'a' <= w[k] <= 'z'
  }

  /** A long run of mostly distinct letters, such as an alphabet typed as a test. */
  predicate AlphabetRun(w: string) {
    AllLetters(w) && |w| >= 10 && |EntropyGate.Chars(w)| as real / |w| as real > 0.8
  }

  /** The filters of `_tokenize`, in order. */
  predicate Keep(w: string, extraStop: set<string>, minLen: int) {
    && |w| >= minLen
    && w !in StopBase
    && w !in extraStop
    && !AllDigits(w)
    && !AlphabetRun(w)
  }

  /** The tokens of `ws` that pass the filters, in order. */
  function Kept(ws: seq<string>, extraStop: set<string>, minLen: int): (kept: seq<string>)
    ensures |kept| <= |ws|
    decreases |ws|
  {
    if ws == [] then []
    else
      var init := Kept(ws[..|ws| - 1], extraStop, minLen);
      if Keep(ws[|ws| - 1], extraStop, minLen) then init + [ws[|ws| - 1]] else init
  }

  /** The tokens `_tokenize` returns; an absent text is the empty text, an absent stop set the empty set. */
  function TokensOf(text: Option<string>, extraStop: set<string>, minLen: int): seq<string> {
    Kept(Runs(Lower(text.GetOr(""))), extraStop, minLen)
  }

  method Tokenize(text: Option<string>, extraStop: set<string>, minLen: int) returns (cleaned: seq<string>)
    ensures cleaned == TokensOf(text, extraStop, minLen)
  {
    var words := Runs(Lower(text.GetOr("")));
    cleaned := [];
    for i := 0 to |words|
      invariant cleaned == Kept(words[..i], extraStop, minLen)
    {
      var w := words[i];
      assert words[..i + 1][..i] == words[..i];
      if |w| < minLen {
        continue;
      }
      if w in StopBase {
        continue;
      }
      if w in extraStop {
        continue;
      }
      if AllDigits(w) {
        continue;
      }
      if AllLetters(w) && |w| >= 10 {
        if |EntropyGate.Chars(w)| as real / |w| as real > 0.8 {
          continue;
        }
      }
      cleaned := cleaned + [w];
    }
    assert words[..|words|] == words;
  }

  /** A token is kept exactly when it is one of the input tokens and passes every filter. */
  lemma {:induction false} KeptMembers(ws: seq<string>, extraStop: set<string>, minLen: int, w: string)
    ensures w in Kept(ws, extraStop, minLen) <==> w in ws && Keep(w, extraStop, minLen)
    decreases |ws|
  {
    if ws != [] {
      KeptMembers(ws[..|ws| - 1], extraStop, minLen, w);
      InitOrLast(ws, w);
    }
  }

  /** The kept tokens are an order-preserving subsequence of the input tokens. */
  lemma {:induction false} KeptSubsequence(ws: seq<string>, extraStop: set<string>, minLen: int)
    ensures Subsequence(Kept(ws, extraStop, minLen), ws)
    decreases |ws|
  {
    if ws != [] {
      var init := ws[..|ws| - 1];
      KeptSubsequence(init, extraStop, minLen);
      var k := Kept(init, extraStop, minLen);
      if Keep(ws[|ws| - 1], extraStop, minLen) {
        assert (k + [ws[|ws| - 1]])[..|k|] == k;
      }
    }
  }

  /** Every token `_tokenize` returns is a lowercase run that passed every filter. */
  lemma TokensFiltered(text: Option<string>, extraStop: set<string>, minLen: int, w: string)
    requires w in TokensOf(text, extraStop, minLen)
    ensures IsToken(w) && |w| >= minLen && w !in StopBase && w !in extraStop
    ensures !AllDigits(w) && !AlphabetRun(w)
  {
    var runs := Runs(Lower(text.GetOr("")));
    KeptMembers(runs, extraStop, minLen, w);
  }

  /** The bigram of the adjacent words at `i` and `i + 1`. */
  function Bigram(words: seq<string>, i: nat): string
    requires i + 1 < |words|
  {
    words[i] + " " + words[i + 1]
  }

  /** `_bigrams`: adjacent pairs "a b" left to right, skipping pairs of equal words. */
  function BigramsOf(words: seq<string>): (bs: seq<string>)
    ensures |bs| <= |words|
    ensures |words| < 2 ==> bs == []
    decreases |words|
  {
    if |words| < 2 then []
    else
      var init := BigramsOf(words[..|words| - 1]);
      if words[|words| - 2] == words[|words| - 1] then init
      else init + [Bigram(words, |words| - 2)]
  }

  method Bigrams(words: seq<string>) returns (out: seq<string>)
    ensures out == BigramsOf(words)
  {
    out := [];
    if |words| == 0 {
      return;
    }
    var i := 0;
    while i + 1 < |words|
      invariant 0 <= i < |words|
      invariant out == BigramsOf(words[..i + 1])
    {
      var a, b := words[i], words[i + 1];
      assert words[..i + 2][..i + 1] == words[..i + 1];
      if a == b {
        i := i + 1;
        continue;
      }
      out := out + [a + " " + b];
      i := i + 1;
    }
    assert words[..i + 1] == words;
  }

  /** There are at most `n - 1` bigrams of `n` words. */
  lemma {:induction false} BigramsCount(words: seq<string>)
    ensures |BigramsOf(words)| <= if |words| < 2 then 0 else |words| - 1
    decreases |words|
  {
    if |words| >= 2 {
      BigramsCount(words[..|words| - 1]);
    }
  }

  /** The position of the word pair a bigram came from. */
  lemma {:induction false} BigramSource(words: seq<string>, b: string) returns (i: nat)
    requires b in BigramsOf(words)
    ensures i + 1 < |words| && words[i] != words[i + 1] && b == Bigram(words, i)
    decreases |words|
  {
    var init := words[..|words| - 1];
    var n := |words|;
    assert BigramsOf(words) == if words[n - 2] == words[n - 1] then BigramsOf(init) else BigramsOf(init) + [Bigram(words, n - 2)];
    if b in BigramsOf(init) {
      i := BigramSource(init, b);
      assert words[i] == init[i] && words[i + 1] == init[i + 1];
    } else {
      i := n - 2;
    }
  }

  /** Each bigram joins two adjacent, different words. */
  lemma BigramsAdjacent(words: seq<string>, b: string)
    requires b in BigramsOf(words)
    ensures exists i :: 0 <= i && i + 1 < |words| && words[i] != words[i + 1] && b == Bigram(words, i)
  {
    var i := BigramSource(words, b);
  }

  /** Adding words at the end only adds bigrams at the end: the order follows the words. */
  lemma {:induction false} BigramsPrefix(words: seq<string>, k: nat)
    requires k <= |words|
    ensures var before := BigramsOf(words[..k]);
      |before| <= |BigramsOf(words)| && BigramsOf(words)[..|before|] == before
    decreases |words| - k
  {
    if k < |words| {
      BigramsPrefix(words, k + 1);
      assert words[..k + 1][..k] == words[..k];
      var before := BigramsOf(words[..k]);
      var mid := BigramsOf(words[..k + 1]);
      assert |before| <= |mid| && mid[..|before|] == before;
    } else {
      assert words[..k] == words;
    }
  }

  /** The distinct elements of `ws` in first-occurrence order (the model's iteration order for `set(ws)`). */
  function Dedup(ws: seq<string>): (r: seq<string>)
    ensures Distinct(r)
    ensures forall v :: v in r <==> v in ws
    decreases |ws|
  {
    if ws == [] then []
    else
      var init := Dedup(ws[..|ws| - 1]);
      var last := ws[|ws| - 1];
      assert forall v :: v in ws <==> v in ws[..|ws| - 1] || v == last by {
        forall v ensures v in ws <==> v in ws[..|ws| - 1] || v == last {
          InitOrLast(ws, v);
        }
      }
      if last in init then init else init + [last]
  }

  /** The unigram and bigram counters after the first texts. */
  function ThemeCounters(texts: seq<string>, extraStop: set<string>, minLen: int, presence: bool): (cs: (Counter, Counter))
    ensures cs.0.Valid() && cs.1.Valid()
    decreases |texts|
  {
    if texts == [] then (Empty, Empty)
    else
      var (uni, bi) := ThemeCounters(texts[..|texts| - 1], extraStop, minLen, presence);
      var w := TokensOf(Some(texts[|texts| - 1]), extraStop, minLen);
      var b := BigramsOf(w);
      if presence then (Update(uni, Dedup(w)), Update(bi, Dedup(b)))
      else (Update(uni, w), Update(bi, b))
  }

  /** `_top_themes`: the `n` most common unigrams and bigrams over all texts. */
  method TopThemes(texts: seq<string>, n: int, extraStop: set<string>, minLen: int, presence: bool)
    returns (uniTop: seq<(string, nat)>, biTop: seq<(string, nat)>)
    ensures var cs := ThemeCounters(texts, extraStop, minLen, presence);
      uniTop == MostCommon(Items(cs.0), n) && biTop == MostCommon(Items(cs.1), n)
  {
    var uni, bi := Empty, Empty;
    for i := 0 to |texts|
      invariant (uni, bi) == ThemeCounters(texts[..i], extraStop, minLen, presence)
    {
      assert texts[..i + 1][..i] == texts[..i];
      var w := Tokenize(Some(texts[i]), extraStop, minLen);
      var b := Bigrams(w);
      if presence {
        uni := Update(uni, Dedup(w));
        bi := Update(bi, Dedup(b));
      } else {
        uni := Update(uni, w);
        bi := Update(bi, b);
      }
    }
    assert texts[..|texts|] == texts;
    uniTop := MostCommon(Items(uni), n);
    biTop := MostCommon(Items(bi), n);
  }

  /** How many of the texts yield the unigram (`bigram` false) or the bigram (`bigram` true) `v`. */
  function TextsWith(texts: seq<string>, extraStop: set<string>, minLen: int, bigram: bool, v: string): (m: nat)
    ensures m <= |texts|
    decreases |texts|
  {
    if texts == [] then 0
    else
      var w := TokensOf(Some(texts[|texts| - 1]), extraStop, minLen);
      var themes := if bigram then BigramsOf(w) else w;
      TextsWith(texts[..|texts| - 1], extraStop, minLen, bigram, v) + (if v in themes then 1 else 0)
  }

  /** All unigrams (`bigram` false) or all bigrams (`bigram` true) of the texts, in order. */
  function AllThemes(texts: seq<string>, extraStop: set<string>, minLen: int, bigram: bool): seq<string>
    decreases |texts|
  {
    if texts == [] then []
    else
      var w := TokensOf(Some(texts[|texts| - 1]), extraStop, minLen);
      AllThemes(texts[..|texts| - 1], extraStop, minLen, bigram) + (if bigram then BigramsOf(w) else w)
  }

  /** A deduplicated list holds each of its elements once. */
  lemma DedupOccurrences(ws: seq<string>, v: string)
    ensures Occurrences(Dedup(ws), v) == if v in ws then 1 else 0
  {
    DistinctOccurrences(Dedup(ws), v);
    OccurrencesPositive(Dedup(ws), v);
  }

  /** In presence mode a theme's count is the number of texts that yield it, so it never exceeds the number of texts. */
  lemma {:induction false} PresenceCounts(texts: seq<string>, extraStop: set<string>, minLen: int, v: string)
    ensures var cs := ThemeCounters(texts, extraStop, minLen, true);
      && cs.0.Count(v) == TextsWith(texts, extraStop, minLen, false, v)
      && cs.1.Count(v) == TextsWith(texts, extraStop, minLen, true, v)
      && cs.0.Count(v) <= |texts| && cs.1.Count(v) <= |texts|
    decreases |texts|
  {
    if texts != [] {
      var init := texts[..|texts| - 1];
      PresenceCounts(init, extraStop, minLen, v);
      var cs := ThemeCounters(init, extraStop, minLen, true);
      var w := TokensOf(Some(texts[|texts| - 1]), extraStop, minLen);
      var b := BigramsOf(w);
      UpdateCount(cs.0, Dedup(w), v);
      UpdateCount(cs.1, Dedup(b), v);
      DedupOccurrences(w, v);
      DedupOccurrences(b, v);
    }
  }

  /** Without presence mode a theme's count is its number of occurrences over all texts. */
  lemma {:induction false} CountingTotals(texts: seq<string>, extraStop: set<string>, minLen: int, v: string)
    ensures var cs := ThemeCounters(texts, extraStop, minLen, false);
      && cs.0.Count(v) == Occurrences(AllThemes(texts, extraStop, minLen, false), v)
      && cs.1.Count(v) == Occurrences(AllThemes(texts, extraStop, minLen, true), v)
    decreases |texts|
  {
    if texts != [] {
      var init := texts[..|texts| - 1];
      CountingTotals(init, extraStop, minLen, v);
      var cs := ThemeCounters(init, extraStop, minLen, false);
      var w := TokensOf(Some(texts[|texts| - 1]), extraStop, minLen);
      var b := BigramsOf(w);
      UpdateCount(cs.0, w, v);
      UpdateCount(cs.1, b, v);
      OccurrencesConcat(AllThemes(init, extraStop, minLen, false), w, v);
      OccurrencesConcat(AllThemes(init, extraStop, minLen, true), b, v);
    }
  }

  /** At most `n` themes of each kind are reported; in presence mode each reported count is at most the number of texts. */
  lemma TopThemesBounds(texts: seq<string>, n: int, extraStop: set<string>, minLen: int, x: (string, nat))
    ensures var cs := ThemeCounters(texts, extraStop, minLen, true);
      && |MostCommon(Items(cs.0), n)| <= (if n < 0 then 0 else n)
      && |MostCommon(Items(cs.1), n)| <= (if n < 0 then 0 else n)
      && (x in MostCommon(Items(cs.0), n) || x in MostCommon(Items(cs.1), n) ==> x.1 <= |texts|)
  {
    var cs := ThemeCounters(texts, extraStop, minLen, true);
    PresenceCounts(texts, extraStop, minLen, x.0);
    if x in MostCommon(Items(cs.0), n) {
      ReportedPair(cs.0, n, x);
    } else if x in MostCommon(Items(cs.1), n) {
      ReportedPair(cs.1, n, x);
    }
  }

  /** A reported pair carries its word's count in the counter. */
  lemma ReportedPair(c: Counter, n: int, x: (string, nat))
    requires c.Valid() && x in MostCommon(Items(c), n)
    ensures x.1 == c.Count(x.0)
  {
    var items := Items(c);
    MostCommonShape(items, n);
    assert x in multiset(items);
    var k :| 0 <= k < |items| && items[k] == x;
  }
}
