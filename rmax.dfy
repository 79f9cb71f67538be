/** RMax: buffers the numbers of a window and, at the window's end, hands them
    to the R engine as the variable `vector` and emits `max(vector)`. */
module RMax {
  import opened Wrappers
  import RVectors

  /** The name under which the window's values are assigned in the R engine. */
  const VectorName: string := "vector"

  class RMax {
    /** The values received in the current window, in arrival order. */
    var vector: seq<int>
    /** The R engine's variables, as far as this operator assigns them. */
    var env: map<string, seq<int>>

    constructor ()
      ensures vector == [] && env == map[]
    {
      vector := [];
      env := map[];
    }

    /** `process`: append the tuple to the buffer; nothing else changes. */
    method Process(tuple: int)
      modifies this
      ensures vector == old(vector) + [tuple]
      ensures env == old(env)
    {
      vector := vector + [tuple];
    }

    /** `endWindow`: nothing to do on an empty window; otherwise copy the
        buffer into an array, assign it in the engine, emit the engine's
        `max` of it and clear the buffer. */
    method EndWindow() returns (emitted: Option<int>)
      modifies this
      ensures old(vector) == [] ==> emitted == None && vector == old(vector) && env == old(env)
      ensures old(vector) != [] ==>
        && env == old(env)[VectorName := old(vector)]
        && emitted == Some(RVectors.Max(env[VectorName]))
        && vector == []
      ensures emitted.Some? ==>
        && emitted.value in old(vector)
        && forall i :: 0 <= i < |old(vector)| ==> old(vector)[i] <= emitted.value
    {
      if |vector| == 0 {
        return None;
      }
      var values := RVectors.CopyToArray(vector);
      env := env[VectorName := values[..]];
      var rMax := RVectors.Max(env[VectorName]);
      emitted := Some(rMax);
      vector := [];
    }
  }

  /** The values the operator's unit test sends in one window. */
  const UnitTestValues: seq<int> := [2, 20, 1000, 1, 10, 5, 12, 22, 14, 46, 2, 23]

  /** Their maximum is 1000, the value the test expects. */
  lemma UnitTestMaximum()
    ensures RVectors.Max(UnitTestValues) == 1000
  {
    var s := UnitTestValues;
    assert s[2] == 1000;
    assert forall i :: 0 <= i < |s| ==> s[i] <= 1000;
    RVectors.MaxUnique(s, 1000);
  }

  /** The unit test's window: twelve values in, exactly one emission, 1000. */
  method UnitTestWindow() returns (emitted: Option<int>)
    ensures emitted == Some(1000)
  {
    var oper := new RMax();
    var i := 0;
    while i < |UnitTestValues|
      invariant 0 <= i <= |UnitTestValues|
      invariant oper.vector == UnitTestValues[..i]
      modifies oper
    {
      oper.Process(UnitTestValues[i]);
      assert UnitTestValues[..i + 1] == UnitTestValues[..i] + [UnitTestValues[i]];
      i := i + 1;
    }
    assert oper.vector == UnitTestValues;
    emitted := oper.EndWindow();
    UnitTestMaximum();
  }
}
