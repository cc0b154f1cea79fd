/** Small shared datatypes: optional values and fallible results. */
module Base {

  datatype Option<+T> = None | Some(value: T) {
    function GetOr(default: T): T {
      match this
      case Some(v) => v
      case None => default
    }
  }

  /** A Python call that either returns a value or raises (the message names the exception). */
  datatype Result<+T> = Ok(value: T) | Err(error: string)

  /** The `{"decision": …, "reason": …}` record the allow/deny gates return. */
  datatype Verdict = Allow | Deny
  datatype Decision = Decision(verdict: Verdict, reason: string)

  /** The last `n` elements of `s` (all of it when it is shorter): Python's `s[-n:]` for n > 0. */
  function LastN<T>(s: seq<T>, n: nat): (r: seq<T>)
    requires n > 0
    ensures |r| == if |s| <= n then |s| else n
    ensures |s| <= n ==> r == s
    decreases |s|
  {
    if |s| <= n then s else LastN(s[1..], n)
  }

  /** `LastN` keeps the tail of `s`, in order. */
  lemma {:induction false} LastNIndex<T>(s: seq<T>, n: nat, k: int)
    requires n > 0 && 0 <= k < |LastN(s, n)|
    ensures LastN(s, n)[k] == s[|s| - |LastN(s, n)| + k]
    decreases |s|
  {
    if |s| > n {
      LastNIndex(s[1..], n, k);
    }
  }

  /** Trimming after each append is trimming once at the end. */
  lemma {:induction false} LastNAppend<T>(s: seq<T>, x: T, n: nat)
    requires n > 0
    ensures LastN(s + [x], n) == LastN(LastN(s, n) + [x], n)
    decreases |s|
  {
    if |s| > n {
      assert (s + [x])[1..] == s[1..] + [x];
      LastNAppend(s[1..], x, n);
    }
  }

  /** The first `n` elements of `s` (all of it when it is shorter): Python's `s[:n]` for n >= 0. */
  function FirstN<T>(s: seq<T>, n: nat): (r: seq<T>)
    ensures |r| == if |s| <= n then |s| else n
    ensures |s| <= n ==> r == s
    ensures r == s[..|r|]
  {
    if |s| <= n then s else s[..n]
  }

  /** Python's `s[:stop]` for an integer `stop`; a negative `stop` counts from the end. */
  function SliceTo<T>(s: seq<T>, stop: int): (r: seq<T>)
    ensures |r| == if stop >= 0 then (if |s| <= stop then |s| else stop) else (if |s| + stop > 0 then |s| + stop else 0)
    ensures r == s[..|r|]
  {
    if stop >= 0 then FirstN(s, stop)
    else if |s| + stop > 0 then s[..|s| + stop]
    else []
  }

  /** `sub` is `s` with some elements dropped and the rest in their order. */
  predicate Subsequence<T(==)>(sub: seq<T>, s: seq<T>)
    decreases |s|
  {
    if s == [] then sub == []
    else
      || (sub != [] && sub[|sub| - 1] == s[|s| - 1] && Subsequence(sub[..|sub| - 1], s[..|s| - 1]))
      || Subsequence(sub, s[..|s| - 1])
  }
}
