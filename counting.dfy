/**
 * Python's `collections.Counter` on strings, as the node-store helpers use
 * it: counting in first-occurrence order, `update`, and `most_common(n)`.
 */
module Counting {

  /** Occurrences of `w` in `ws` (`ws.count(w)`). */
  function Occurrences(ws: seq<string>, w: string): nat
    decreases |ws|
  {
    if ws == [] then 0
    else Occurrences(ws[..|ws| - 1], w) + (if ws[|ws| - 1] == w then 1 else 0)
  }

  lemma {:induction false} OccurrencesConcat(a: seq<string>, b: seq<string>, w: string)
    ensures Occurrences(a + b, w) == Occurrences(a, w) + Occurrences(b, w)
    decreases |b|
  {
    if b == [] {
      assert a + b == a;
    } else {
      assert (a + b)[..|a + b| - 1] == a + b[..|b| - 1];
      OccurrencesConcat(a, b[..|b| - 1], w);
    }
  }

  /** A word occurs in a list exactly when the list holds it. */
  lemma {:induction false} OccurrencesPositive(ws: seq<string>, w: string)
    ensures Occurrences(ws, w) > 0 <==> w in ws
    decreases |ws|
  {
    if ws != [] {
      OccurrencesPositive(ws[..|ws| - 1], w);
      assert ws == ws[..|ws| - 1] + [ws[|ws| - 1]];
    }
  }

  predicate Distinct(ws: seq<string>) {
    forall i, j :: 0 <= i < j < |ws| ==> ws[i] != ws[j]
  }

  /** A list without duplicates holds each word at most once. */
  lemma {:induction false} DistinctOccurrences(ws: seq<string>, w: string)
    requires Distinct(ws)
    ensures Occurrences(ws, w) <= 1
    decreases |ws|
  {
    if ws != [] {
      var init := ws[..|ws| - 1];
      assert Distinct(init);
      DistinctOccurrences(init, w);
      if ws[|ws| - 1] == w {
        assert w !in init;
        OccurrencesPositive(init, w);
      }
    }
  }

  /** A counter: its keys in first-insertion order, and a positive count per key. */
  datatype Counter = Counter(keys: seq<string>, counts: map<string, nat>)
  {
    ghost predicate Valid() {
      && Distinct(keys)
      && (forall w :: w in counts <==> w in keys)
      && (forall w :: w in counts ==> counts[w] > 0)
    }

    /** `c[w]`: missing words count zero. */
    function Count(w: string): nat {
      if w in counts then counts[w] else 0
    }
  }

  const Empty: Counter := Counter([], map[])

  /** Counting one more `w`: a new word goes to the end of the key order. */
  function Add(c: Counter, w: string): (d: Counter)
    requires c.Valid()
    ensures d.Valid()
    ensures d.Count(w) == c.Count(w) + 1
    ensures forall v :: v != w ==> d.Count(v) == c.Count(v)
    ensures d.keys == c.keys + (if w in c.counts then [] else [w])
  {
    if w in c.counts then Counter(c.keys, c.counts[w := c.counts[w] + 1])
    else Counter(c.keys + [w], c.counts[w := 1])
  }

  lemma AddKeys(c: Counter, w: string, v: string)
    requires c.Valid()
    ensures v in Add(c, w).keys <==> v in c.keys || v == w
  {
    if w in c.counts {
      assert w in c.keys;
    }
  }

  /** `c.update(ws)`: count every word of `ws` in order; earlier keys keep their places. */
  function Update(c: Counter, ws: seq<string>): (d: Counter)
    requires c.Valid()
    ensures d.Valid()
    ensures |d.keys| >= |c.keys| && d.keys[..|c.keys|] == c.keys
    decreases |ws|
  {
    if ws == [] then c
    else
      var u := Update(c, ws[..|ws| - 1]);
      var d := Add(u, ws[|ws| - 1]);
      assert d.keys[..|c.keys|] == u.keys[..|c.keys|];
      d
  }

  lemma InitOrLast(ws: seq<string>, v: string)
    requires ws != []
    ensures v in ws <==> v in ws[..|ws| - 1] || v == ws[|ws| - 1]
  {
    assert ws == ws[..|ws| - 1] + [ws[|ws| - 1]];
  }

  /** After an update each word's count has grown by its occurrences in the update. */
  lemma {:induction false} UpdateCount(c: Counter, ws: seq<string>, v: string)
    requires c.Valid()
    ensures Update(c, ws).Count(v) == c.Count(v) + Occurrences(ws, v)
    decreases |ws|
  {
    if ws != [] {
      UpdateCount(c, ws[..|ws| - 1], v);
    }
  }

  /** The keys after an update are the earlier keys and the words of the update. */
  lemma {:induction false} UpdateKeys(c: Counter, ws: seq<string>, v: string)
    requires c.Valid()
    ensures v in Update(c, ws).keys <==> v in c.keys || v in ws
    decreases |ws|
  {
    if ws != [] {
      var init, last := ws[..|ws| - 1], ws[|ws| - 1];
      UpdateKeys(c, init, v);
      var u := Update(c, init);
      assert Update(c, ws) == Add(u, last);
      AddKeys(u, last, v);
      InitOrLast(ws, v);
    }
  }

  /** `Counter(ws)`. */
  function Tally(ws: seq<string>): (c: Counter)
    ensures c.Valid()
    ensures forall v :: c.Count(v) == Occurrences(ws, v)
    ensures forall v :: v in c.keys <==> v in ws
  {
    forall v ensures Update(Empty, ws).Count(v) == Occurrences(ws, v) && (v in Update(Empty, ws).keys <==> v in ws) {
      UpdateCount(Empty, ws, v);
      UpdateKeys(Empty, ws, v);
    }
    Update(Empty, ws)
  }

  /** Updating with two lists in turn is updating with their concatenation. */
  lemma {:induction false} UpdateConcat(c: Counter, a: seq<string>, b: seq<string>)
    requires c.Valid()
    ensures Update(Update(c, a), b) == Update(c, a + b)
    decreases |b|
  {
    if b == [] {
      assert a + b == a;
    } else {
      assert (a + b)[..|a + b| - 1] == a + b[..|b| - 1];
      UpdateConcat(c, a, b[..|b| - 1]);
    }
  }

  /** The `(word, count)` pairs of a counter in key order. */
  function Items(c: Counter): (items: seq<(string, nat)>)
    requires c.Valid()
    ensures |items| == |c.keys|
    ensures forall i :: 0 <= i < |items| ==> items[i] == (c.keys[i], c.Count(c.keys[i])) && items[i].1 > 0
  {
    seq(|c.keys|, i requires 0 <= i < |c.keys| => (c.keys[i], c.Count(c.keys[i])))
  }

  /** Counts never increase from one pair to the next. */
  predicate Descending(s: seq<(string, nat)>) {
    forall i :: 0 < i < |s| ==> s[i - 1].1 >= s[i].1
  }

  /** Place `x` before the first pair whose count does not exceed its own. */
  function Insert(x: (string, nat), s: seq<(string, nat)>): (r: seq<(string, nat)>)
    ensures |r| == |s| + 1
    ensures multiset(r) == multiset(s) + multiset{x}
    ensures r[0] == x || (s != [] && r[0] == s[0])
    ensures Descending(s) ==> Descending(r)
    decreases |s|
  {
    if s == [] || x.1 >= s[0].1 then [x] + s
    else
      var tail := Insert(x, s[1..]);
      assert s == [s[0]] + s[1..];
      assert Descending(s) ==> Descending(s[1..]) by {
        if Descending(s) {
          forall i | 0 < i < |s[1..]| ensures s[1..][i - 1].1 >= s[1..][i].1 {
            assert s[1..][i - 1] == s[i] && s[1..][i] == s[i + 1];
          }
        }
      }
      [s[0]] + tail
  }

  /**
   * A stable sort by descending count: a pair that comes first in `items`
   * stays ahead of later pairs with the same count.
   */
  function SortDescending(items: seq<(string, nat)>): (sorted: seq<(string, nat)>)
    ensures multiset(sorted) == multiset(items)
    ensures |sorted| == |items|
    ensures Descending(sorted)
    decreases |items|
  {
    if items == [] then []
    else
      assert items == [items[0]] + items[1..];
      Insert(items[0], SortDescending(items[1..]))
  }

  /** In a descending list every pair has at least the count of every later pair. */
  lemma {:induction false} DescendingPairwise(s: seq<(string, nat)>, i: nat, j: nat)
    requires Descending(s) && i <= j < |s|
    ensures s[i].1 >= s[j].1
    decreases j - i
  {
    if i < j {
      DescendingPairwise(s, i + 1, j);
    }
  }

  /**
   * `most_common(n)`: the first `n` pairs of the stable descending sort
   * (what `heapq.nlargest` returns), or nothing for `n <= 0`.
   */
  function MostCommon(items: seq<(string, nat)>, n: int): (top: seq<(string, nat)>)
    ensures |top| == if n <= 0 then 0 else if n < |items| then n else |items|
    ensures top == SortDescending(items)[..|top|]
  {
    var sorted := SortDescending(items);
    if n <= 0 then [] else if n < |sorted| then sorted[..n] else sorted
  }

  /** Every pair reported is one of the counter's pairs, counts fall along the list, and the first count is the greatest. */
  lemma MostCommonShape(items: seq<(string, nat)>, n: int)
    ensures var top := MostCommon(items, n);
      && multiset(top) <= multiset(items)
      && (forall i, j :: 0 <= i < j < |top| ==> top[i].1 >= top[j].1)
      && (|top| > 0 ==> forall k :: 0 <= k < |items| ==> items[k].1 <= top[0].1)
  {
    var sorted := SortDescending(items);
    var top := MostCommon(items, n);
    assert sorted == top + sorted[|top|..];
    assert multiset(sorted) == multiset(top) + multiset(sorted[|top|..]);
    forall i, j | 0 <= i < j < |top| ensures top[i].1 >= top[j].1 {
      DescendingPairwise(sorted, i, j);
    }
    if |top| > 0 {
      forall k | 0 <= k < |items| ensures items[k].1 <= top[0].1 {
        assert items[k] in multiset(sorted);
        var m :| 0 <= m < |sorted| && sorted[m] == items[k];
        DescendingPairwise(sorted, 0, m);
      }
    }
  }

  /** No pair left out has a greater count than the last pair reported. */
  lemma MostCommonMaximal(items: seq<(string, nat)>, n: int, x: (string, nat))
    requires var top := MostCommon(items, n); |top| > 0 && x in items && x !in top
    ensures var top := MostCommon(items, n); x.1 <= top[|top| - 1].1
  {
    var sorted := SortDescending(items);
    var top := MostCommon(items, n);
    assert x in multiset(sorted);
    var m :| 0 <= m < |sorted| && sorted[m] == x;
    assert m >= |top|;
    DescendingPairwise(sorted, |top| - 1, m);
  }
}
