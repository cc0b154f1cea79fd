/** The direction summary the observability view prints for a series of readings. */
module Observability {

  const Up: string := "↑"
  const Down: string := "↓"
  const Flat: string := "→"

  /** `trend`: compares the last reading with the first. */
  function Trend(values: seq<real>): (t: string)
    ensures |values| < 2 ==> t == Flat
    ensures t == Up <==> |values| >= 2 && values[|values| - 1] > values[0]
    ensures t == Down <==> |values| >= 2 && values[|values| - 1] < values[0]
    ensures t == Flat <==> |values| < 2 || values[|values| - 1] == values[0]
  {
    if |values| < 2 then Flat
    else if values[|values| - 1] > values[0] then Up
    else if values[|values| - 1] < values[0] then Down
    else Flat
  }

  /** Only the endpoints matter: whatever lies between them leaves the trend unchanged. */
  lemma TrendIgnoresMiddle(first: real, middle1: seq<real>, middle2: seq<real>, last: real)
    ensures Trend([first] + middle1 + [last]) == Trend([first] + middle2 + [last])
  {
    var a := [first] + middle1 + [last];
    var b := [first] + middle2 + [last];
    assert a[0] == first && a[|a| - 1] == last;
    assert b[0] == first && b[|b| - 1] == last;
  }

  /** Reversing a series flips a rising trend into a falling one and back. */
  lemma TrendReversed(values: seq<real>)
    requires |values| >= 2
    ensures var rev := seq(|values|, k requires 0 <= k < |values| => values[|values| - 1 - k]);
      (Trend(values) == Up <==> Trend(rev) == Down) && (Trend(values) == Flat <==> Trend(rev) == Flat)
  {
  }
}
