/** The vectors the R operators hand to the embedded R engine: the element-wise
    copy of a buffered list into a fresh array, and R's built-in `max` and `min`
    over a numeric vector, taken as the mathematical maximum and minimum. */
module RVectors {

  /** The for-loop that copies a list into a new array before it is passed on
      (`values[i] = vector.get(i).doubleValue()` in RMax and RMin,
      `iAList[i] = retVal.asIntArray()[i]` and its kin in RScript). */
  method CopyToArray<T(0)>(values: seq<T>) returns (a: array<T>)
    ensures a.Length == |values|
    ensures a[..] == values
  {
    a := new T[|values|];
    var i := 0;
    while i < |values|
      invariant 0 <= i <= |values|
      invariant a.Length == |values|
      invariant a[..i] == values[..i]
      modifies a
    {
      a[i] := values[i];
      assert a[..i + 1] == a[..i] + [a[i]];
      assert values[..i + 1] == values[..i] + [values[i]];
      i := i + 1;
    }
    assert a[..] == a[..i];
    assert values == values[..i];
  }

  /** R's `max` on a non-empty vector. */
  function Max(s: seq<int>): (m: int)
    requires |s| > 0
    ensures m in s
    ensures forall i :: 0 <= i < |s| ==> s[i] <= m
  {
    if |s| == 1 then s[0]
    else
      var rest := Max(s[1..]);
      assert forall i :: 1 <= i < |s| ==> s[i] == s[1..][i - 1];
      if s[0] >= rest then s[0] else rest
  }

  /** R's `min` on a non-empty vector. */
  function Min(s: seq<int>): (m: int)
    requires |s| > 0
    ensures m in s
    ensures forall i :: 0 <= i < |s| ==> m <= s[i]
  {
    if |s| == 1 then s[0]
    else
      var rest := Min(s[1..]);
      assert forall i :: 1 <= i < |s| ==> s[i] == s[1..][i - 1];
      if s[0] <= rest then s[0] else rest
  }

  /** The maximum is determined by the vector's values alone: any value of the
      vector that bounds all of them is the maximum. */
  lemma MaxUnique(s: seq<int>, m: int)
    requires m in s
    requires forall i :: 0 <= i < |s| ==> s[i] <= m
    ensures Max(s) == m
  {
  }

  /** Likewise for the minimum. */
  lemma MinUnique(s: seq<int>, m: int)
    requires m in s
    requires forall i :: 0 <= i < |s| ==> m <= s[i]
    ensures Min(s) == m
  {
  }
}
