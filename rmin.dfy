/** RMin: buffers the numbers of a window and, at the window's end, hands them
    to the R engine as the variable `numList` and emits `min(numList)`. */
module RMin {
  import opened Wrappers
  import RVectors

  /** The name under which the window's values are assigned in the R engine. */
  const VectorName: string := "numList"

  class RMin {
    /** The values received in the current window, in arrival order. */
    var numList: seq<int>
    /** The R engine's variables, as far as this operator assigns them. */
    var env: map<string, seq<int>>

    constructor ()
      ensures numList == [] && env == map[]
    {
      numList := [];
      env := map[];
    }

    /** `process`: append the tuple to the buffer; nothing else changes. */
    method Process(tuple: int)
      modifies this
      ensures numList == old(numList) + [tuple]
      ensures env == old(env)
    {
      numList := numList + [tuple];
    }

    /** `endWindow`: nothing to do on an empty window; otherwise copy the
        buffer into an array, assign it in the engine, emit the engine's
        `min` of it and clear the buffer. */
    method EndWindow() returns (emitted: Option<int>)
      modifies this
      ensures old(numList) == [] ==> emitted == None && numList == old(numList) && env == old(env)
      ensures old(numList) != [] ==>
        && env == old(env)[VectorName := old(numList)]
        && emitted == Some(RVectors.Min(env[VectorName]))
        && numList == []
      ensures emitted.Some? ==>
        && emitted.value in old(numList)
        && forall i :: 0 <= i < |old(numList)| ==> emitted.value <= old(numList)[i]
    {
      if |numList| == 0 {
        return None;
      }
      var values := RVectors.CopyToArray(numList);
      env := env[VectorName := values[..]];
      var rMin := RVectors.Min(env[VectorName]);
      emitted := Some(rMin);
      numList := [];
    }
  }
}
