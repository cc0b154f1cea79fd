/**
 * The handful of Python `str` builtins the governance pipeline relies on:
 * whitespace classification, `strip`, `lower`, `split()`, `" ".join`, prefix,
 * suffix and substring tests, non-overlapping `count`, and single-character
 * `replace`.
 */
module PyText {

  /** Python's `str.isspace()` on one code point (the set `split()` and `strip()` use). */
  predicate IsSpace(c: char) {
    var n := c as int;
    (9 <= n <= 13) || (28 <= n <= 32) || n == 0x85 || n == 0xA0 || n == 0x1680
    || (0x2000 <= n <= 0x200A) || n == 0x2028 || n == 0x2029 || n == 0x202F
    || n == 0x205F || n == 0x3000
  }

  /** True when `s` holds only whitespace (Python `not s.strip()`). */
  predicate IsBlank(s: string) {
    forall k :: 0 <= k < |s| ==> IsSpace(s[k])
  }

  /** A token of `split()`: non-empty and free of whitespace. */
  predicate IsWord(w: string) {
    |w| > 0 && forall k :: 0 <= k < |w| ==> !IsSpace(w[k])
  }

  function StripLeft(s: string): (r: string)
    ensures |r| <= |s|
  {
    if |s| > 0 && IsSpace(s[0]) then StripLeft(s[1..]) else s
  }

  function StripRight(s: string): (r: string)
    ensures |r| <= |s|
  {
    if |s| > 0 && IsSpace(s[|s| - 1]) then StripRight(s[..|s| - 1]) else s
  }

  /** Python `s.strip()`. */
  function Strip(s: string): (r: string)
    ensures |r| <= |s|
  {
    StripRight(StripLeft(s))
  }

  /** `lstrip` removes exactly the leading whitespace: a suffix remains that starts with a non-space. */
  lemma {:induction false} StripLeftShape(s: string)
    ensures var r := StripLeft(s);
      && r == s[|s| - |r|..]
      && (r == [] || !IsSpace(r[0]))
      && forall k :: 0 <= k < |s| - |r| ==> IsSpace(s[k])
    decreases |s|
  {
    if |s| > 0 && IsSpace(s[0]) {
      StripLeftShape(s[1..]);
    }
  }

  /** `rstrip` removes exactly the trailing whitespace: a prefix remains that ends in a non-space. */
  lemma {:induction false} StripRightShape(s: string)
    ensures var r := StripRight(s);
      && r == s[..|r|]
      && (r == [] || !IsSpace(r[|r| - 1]))
      && forall k :: |r| <= k < |s| ==> IsSpace(s[k])
    decreases |s|
  {
    if |s| > 0 && IsSpace(s[|s| - 1]) {
      StripRightShape(s[..|s| - 1]);
    }
  }

  /** `strip` is empty exactly on blank input, and otherwise begins and ends with a non-space. */
  lemma StripShape(s: string)
    ensures Strip(s) == [] <==> IsBlank(s)
    ensures Strip(s) != [] ==> !IsSpace(Strip(s)[0]) && !IsSpace(Strip(s)[|Strip(s)| - 1])
  {
    var l := StripLeft(s);
    StripLeftShape(s);
    StripRightShape(l);
    var r := StripRight(l);
    if r == [] {
      assert l == [];
      assert IsBlank(s);
    } else {
      assert r[0] == l[0];
      assert !IsBlank(s) by { assert !IsSpace(s[|s| - |l|]); }
    }
  }

  /** `strip` returns a slice of its input, so it introduces no character. */
  lemma StripInfix(s: string)
    ensures forall k :: 0 <= k < |Strip(s)| ==> Strip(s)[k] in s
  {
    var l := StripLeft(s);
    StripLeftShape(s);
    StripRightShape(l);
    forall k | 0 <= k < |Strip(s)| ensures Strip(s)[k] in s {
      assert Strip(s)[k] == l[k] == s[|s| - |l| + k];
    }
  }

  /** Stripping twice is stripping once. */
  lemma StripIdempotent(s: string)
    ensures Strip(Strip(s)) == Strip(s)
  {
    StripShape(s);
    var r := Strip(s);
    assert StripLeft(r) == r;
    assert StripRight(r) == r;
  }

  /** A trailing blank does not survive `strip`. */
  lemma StripTrailingSpace(s: string)
    ensures Strip(s + " ") == Strip(s)
  {
    StripLeftTrailingSpace(s);
    StripShape(s);
    if !IsBlank(s) {
      var l := StripLeft(s);
      assert (l + " ")[..|l|] == l;
    }
  }

  lemma {:induction false} StripLeftTrailingSpace(s: string)
    ensures StripLeft(s + " ") == if IsBlank(s) then [] else StripLeft(s) + " "
    decreases |s|
  {
    if s == [] {
      assert StripLeft(" "[1..]) == [];
    } else if IsSpace(s[0]) {
      assert (s + " ")[1..] == s[1..] + " ";
      StripLeftTrailingSpace(s[1..]);
      assert IsBlank(s) <==> IsBlank(s[1..]) by {
        assert forall k :: 0 <= k < |s[1..]| ==> s[1..][k] == s[k + 1];
      }
    } else {
      assert !IsBlank(s);
    }
  }

  /** Python `c.lower()` for ASCII letters; every other character is kept. */
  function LowerChar(c: char): char {
    if 'A' <= c <= 'Z' then (c as int + 32) as char else c
  }

  /** Python `s.lower()` restricted to ASCII case mapping. */
  function Lower(s: string): (r: string)
    ensures |r| == |s|
    ensures forall k :: 0 <= k < |s| ==> r[k] == LowerChar(s[k])
  {
    seq(|s|, k requires 0 <= k < |s| => LowerChar(s[k]))
  }

  lemma LowerKeepsSpace(s: string, k: int)
    requires 0 <= k < |s|
    ensures IsSpace(Lower(s)[k]) <==> IsSpace(s[k])
  {
  }

  /** The longest prefix of `s` free of whitespace. */
  function WordPrefix(s: string): (w: string)
    ensures |w| <= |s|
    ensures |s| > 0 && !IsSpace(s[0]) ==> |w| > 0
  {
    if |s| > 0 && !IsSpace(s[0]) then [s[0]] + WordPrefix(s[1..]) else []
  }

  lemma {:induction false} WordPrefixShape(s: string)
    ensures var w := WordPrefix(s);
      && w == s[..|w|]
      && (forall k :: 0 <= k < |w| ==> !IsSpace(w[k]))
      && (|w| == |s| || IsSpace(s[|w|]))
    decreases |s|
  {
    if |s| > 0 && !IsSpace(s[0]) {
      WordPrefixShape(s[1..]);
      var w := WordPrefix(s);
      assert w == [s[0]] + WordPrefix(s[1..]);
      forall k | 0 <= k < |w| ensures !IsSpace(w[k]) {
        if k > 0 { assert w[k] == WordPrefix(s[1..])[k - 1]; }
      }
    }
  }

  /** Python `s.split()`: the maximal whitespace-free runs, in order. */
  function Split(s: string): seq<string>
    decreases |s|
  {
    var t := StripLeft(s);
    if t == [] then []
    else
      var w := WordPrefix(t);
      if |w| == 0 then []
      else [w] + Split(t[|w|..])
  }

  /** Every item `split()` returns is a word. */
  lemma {:induction false} SplitWords(s: string)
    ensures forall k :: 0 <= k < |Split(s)| ==> IsWord(Split(s)[k])
    decreases |s|
  {
    var t := StripLeft(s);
    StripLeftShape(s);
    if t != [] {
      var w := WordPrefix(t);
      WordPrefixShape(t);
      var rest := Split(t[|w|..]);
      SplitWords(t[|w|..]);
      var ws := Split(s);
      assert ws == [w] + rest;
      forall k | 0 <= k < |ws| ensures IsWord(ws[k]) {
        if k > 0 { assert ws[k] == rest[k - 1]; }
      }
    }
  }

  /** `sep.join(ws)`. */
  function Join(ws: seq<string>, sep: string): string {
    if |ws| == 0 then ""
    else if |ws| == 1 then ws[0]
    else ws[0] + sep + Join(ws[1..], sep)
  }

  /** Joining a concatenation joins each part and puts one separator between them. */
  lemma {:induction false} JoinConcat(a: seq<string>, b: seq<string>, sep: string)
    requires a != [] && b != []
    ensures Join(a + b, sep) == Join(a, sep) + sep + Join(b, sep)
    decreases |a|
  {
    if |a| == 1 {
      assert (a + b)[1..] == b;
    } else {
      assert (a + b)[1..] == a[1..] + b;
      JoinConcat(a[1..], b, sep);
    }
  }

  lemma SplitSkipsSpace(x: string)
    ensures Split(" " + x) == Split(x)
  {
    assert (" " + x)[1..] == x;
    assert StripLeft(" " + x) == StripLeft(x);
  }

  lemma SplitFirstWord(s: string)
    requires |s| > 0 && !IsSpace(s[0])
    ensures Split(s) == [WordPrefix(s)] + Split(s[|WordPrefix(s)|..])
  {
    assert StripLeft(s) == s;
  }

  lemma {:induction false} WordPrefixOf(w: string, rest: string)
    requires forall k :: 0 <= k < |w| ==> !IsSpace(w[k])
    requires rest == [] || IsSpace(rest[0])
    ensures WordPrefix(w + rest) == w
    decreases |w|
  {
    if |w| == 0 {
      assert w + rest == rest;
    } else {
      var s := w + rest;
      assert s[0] == w[0];
      assert s[1..] == w[1..] + rest;
      WordPrefixOf(w[1..], rest);
      assert WordPrefix(s) == [w[0]] + w[1..];
      assert [w[0]] + w[1..] == w;
    }
  }

  /** Splitting words joined by single spaces gives the words back. */
  lemma {:induction false} SplitJoin(ws: seq<string>)
    requires forall k :: 0 <= k < |ws| ==> IsWord(ws[k])
    ensures Split(Join(ws, " ")) == ws
    decreases |ws|
  {
    if |ws| == 1 {
      var w := ws[0];
      assert Join(ws, " ") == w + "";
      WordPrefixOf(w, "");
      SplitFirstWord(w + "");
      assert (w + "")[|w|..] == [];
    } else if |ws| > 1 {
      var w := ws[0];
      var rest := Join(ws[1..], " ");
      var s := w + (" " + rest);
      assert Join(ws, " ") == s;
      WordPrefixOf(w, " " + rest);
      SplitFirstWord(s);
      assert s[|w|..] == " " + rest;
      SplitSkipsSpace(rest);
      SplitJoin(ws[1..]);
    }
  }

  /** Joining with a single space never puts whitespace at either end or doubles a separator, so re-joining a split normalises. */
  lemma JoinSplitIdempotent(s: string)
    ensures Split(Join(Split(s), " ")) == Split(s)
  {
    SplitWords(s);
    SplitJoin(Split(s));
  }

  /** Python `s.startswith(p)`. */
  predicate StartsWith(s: string, p: string) {
    |p| <= |s| && s[..|p|] == p
  }

  /** Python `s.endswith(p)`. */
  predicate EndsWith(s: string, p: string) {
    |p| <= |s| && s[|s| - |p|..] == p
  }

  /** Python `p in s` for strings. */
  predicate Contains(s: string, p: string)
    decreases |s|
  {
    StartsWith(s, p) || (|s| > 0 && Contains(s[1..], p))
  }

  /** An occurrence of `p` at position `i` of `s` makes `p in s` true. */
  lemma {:induction false} ContainsAt(s: string, p: string, i: nat)
    requires i + |p| <= |s| && s[i..i + |p|] == p
    ensures Contains(s, p)
    decreases i
  {
    if i > 0 {
      assert s[1..][i - 1..i - 1 + |p|] == s[i..i + |p|];
      ContainsAt(s[1..], p, i - 1);
    }
  }

  /** A pattern occurs in any string that has it as an infix. */
  lemma ContainsInfix(a: string, p: string, b: string)
    ensures Contains(a + p + b, p)
  {
    var s := a + p + b;
    assert s[|a|..|a| + |p|] == p;
    ContainsAt(s, p, |a|);
  }

  /** A pattern holding a character that `s` lacks does not occur in `s`. */
  lemma {:induction false} MissingChar(s: string, p: string, k: nat)
    requires k < |p| && p[k] !in s
    ensures !Contains(s, p)
    decreases |s|
  {
    if |s| > 0 {
      assert p[k] !in s[1..];
      MissingChar(s[1..], p, k);
    }
  }

  /** Python `s.count(p)` for a non-empty `p`: non-overlapping occurrences scanned left to right. */
  function Count(s: string, p: string): (n: nat)
    requires |p| > 0
    ensures n > 0 <==> Contains(s, p)
    decreases |s|
  {
    if |s| < |p| then
      assert !Contains(s, p) by { NoRoom(s, p); }
      0
    else if s[..|p|] == p then 1 + Count(s[|p|..], p)
    else Count(s[1..], p)
  }

  lemma NoRoom(s: string, p: string)
    requires |s| < |p|
    ensures !Contains(s, p)
    decreases |s|
  {
    if |s| > 0 {
      NoRoom(s[1..], p);
    }
  }

  /** Python `s.replace(a, b)` for single characters. */
  function ReplaceChar(s: string, a: char, b: char): (r: string)
    ensures |r| == |s|
    ensures forall k :: 0 <= k < |s| ==> r[k] == if s[k] == a then b else s[k]
  {
    seq(|s|, k requires 0 <= k < |s| => if s[k] == a then b else s[k])
  }
}
