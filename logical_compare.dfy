/** LogicalCompare: a stateless pass-through operator that receives a pair of
    comparable values and emits the pair, unchanged, on the three output ports
    that describe how `first.compareTo(second)` came out. */
module LogicalCompare {

  datatype Pair<T> = Pair(first: T, second: T)

  /** The six output ports. */
  datatype Port =
    | EqualTo
    | NotEqualTo
    | LessThan
    | GreaterThan
    | LessThanOrEqualTo
    | GreaterThanOrEqualTo

  /** One `emit` call: the port and the tuple handed to it. */
  datatype Emission<T> = Emission(port: Port, tuple: Pair<T>)

  /** The relation a port stands for, stated on the sign of a `compareTo` result
      (negative: first is smaller, zero: equal, positive: first is larger). */
  predicate Admits(p: Port, c: int)
  {
    match p
    case EqualTo => c == 0
    case NotEqualTo => c != 0
    case LessThan => c < 0
    case GreaterThan => c > 0
    case LessThanOrEqualTo => c <= 0
    case GreaterThanOrEqualTo => c >= 0
  }

  function Ports<T>(out: seq<Emission<T>>): set<Port>
  {
    set i | 0 <= i < |out| :: out[i].port
  }

  /** `input.process`: the if / else-if chain on the `compareTo` result.
      The pair goes out on exactly the three ports whose relation holds, once
      each, and is the input pair itself. */
  function Process<T>(tuple: Pair<T>, compareTo: (T, T) -> int): (out: seq<Emission<T>>)
    ensures |out| == 3
    ensures forall i :: 0 <= i < |out| ==> out[i].tuple == tuple
    ensures forall i, j :: 0 <= i < j < |out| ==> out[i].port != out[j].port
    ensures forall p :: p in Ports(out) <==> Admits(p, compareTo(tuple.first, tuple.second))
  {
    var i := compareTo(tuple.first, tuple.second);
    var out :=
      if i > 0 then
        [Emission(GreaterThan, tuple), Emission(GreaterThanOrEqualTo, tuple), Emission(NotEqualTo, tuple)]
      else if i < 0 then
        [Emission(LessThan, tuple), Emission(LessThanOrEqualTo, tuple), Emission(NotEqualTo, tuple)]
      else
        [Emission(EqualTo, tuple), Emission(LessThanOrEqualTo, tuple), Emission(GreaterThanOrEqualTo, tuple)];
    assert forall p :: p in Ports(out) <==> p == out[0].port || p == out[1].port || p == out[2].port;
    out
  }

  /** The three cases of the chain, port by port. */
  lemma RoutingBySign<T>(tuple: Pair<T>, compareTo: (T, T) -> int)
    ensures compareTo(tuple.first, tuple.second) > 0 ==>
      Ports(Process(tuple, compareTo)) == {GreaterThan, GreaterThanOrEqualTo, NotEqualTo}
    ensures compareTo(tuple.first, tuple.second) < 0 ==>
      Ports(Process(tuple, compareTo)) == {LessThan, LessThanOrEqualTo, NotEqualTo}
    ensures compareTo(tuple.first, tuple.second) == 0 ==>
      Ports(Process(tuple, compareTo)) == {EqualTo, LessThanOrEqualTo, GreaterThanOrEqualTo}
  {
    var c := compareTo(tuple.first, tuple.second);
    var ports := Ports(Process(tuple, compareTo));
    assert forall p :: p in ports <==> Admits(p, c);
  }

  /** Exactly one of equalTo / notEqualTo receives the pair, and lessThan and
      greaterThan never both do. */
  lemma ComplementaryPorts<T>(tuple: Pair<T>, compareTo: (T, T) -> int)
    ensures (EqualTo in Ports(Process(tuple, compareTo))) != (NotEqualTo in Ports(Process(tuple, compareTo)))
    ensures !(LessThan in Ports(Process(tuple, compareTo)) && GreaterThan in Ports(Process(tuple, compareTo)))
  {
  }

  /** `Integer.compareTo`: -1, 0 or 1. */
  function IntCompareTo(a: int, b: int): (c: int)
    ensures -1 <= c <= 1
    ensures (c < 0 <==> a < b) && (c == 0 <==> a == b) && (c > 0 <==> a > b)
  {
    if a < b then -1 else if a > b then 1 else 0
  }

  /** What a port means for a pair of integers. */
  predicate Holds(p: Port, a: int, b: int)
  {
    match p
    case EqualTo => a == b
    case NotEqualTo => a != b
    case LessThan => a < b
    case GreaterThan => a > b
    case LessThanOrEqualTo => a <= b
    case GreaterThanOrEqualTo => a >= b
  }

  /** For integer pairs the pair reaches a port exactly when the port's
      relation holds between first and second. */
  lemma IntegerRouting(a: int, b: int, p: Port)
    ensures p in Ports(Process(Pair(a, b), IntCompareTo)) <==> Holds(p, a, b)
  {
    assert IntCompareTo(a, b) == IntCompareTo(Pair(a, b).first, Pair(a, b).second);
  }

  /** The port that reports the opposite comparison: it admits a sign exactly
      when p admits the negated sign. */
  function Mirror(p: Port): (q: Port)
    ensures forall c :: Admits(q, c) <==> Admits(p, -c)
  {
    match p
    case EqualTo => EqualTo
    case NotEqualTo => NotEqualTo
    case LessThan => GreaterThan
    case GreaterThan => LessThan
    case LessThanOrEqualTo => GreaterThanOrEqualTo
    case GreaterThanOrEqualTo => LessThanOrEqualTo
  }

  /** With a `compareTo` that obeys the `Comparable` contract on this pair
      (swapping the operands flips the sign), swapping the pair sends it to the
      mirrored ports. */
  lemma SwappedPairMirrored<T>(a: T, b: T, compareTo: (T, T) -> int, p: Port)
    requires (compareTo(a, b) < 0 <==> compareTo(b, a) > 0)
    requires (compareTo(a, b) == 0 <==> compareTo(b, a) == 0)
    ensures p in Ports(Process(Pair(a, b), compareTo)) <==> Mirror(p) in Ports(Process(Pair(b, a), compareTo))
  {
  }

  /** The operator applied to a stream of pairs: the emissions of each tuple
      in turn. */
  function ProcessAll<T>(tuples: seq<Pair<T>>, compareTo: (T, T) -> int): (out: seq<Emission<T>>)
    ensures |out| == 3 * |tuples|
  {
    if tuples == [] then [] else Process(tuples[0], compareTo) + ProcessAll(tuples[1..], compareTo)
  }

  /** No state carries between tuples: what a later batch emits does not
      depend on the tuples before it. */
  lemma {:induction false} Stateless<T>(xs: seq<Pair<T>>, ys: seq<Pair<T>>, compareTo: (T, T) -> int)
    ensures ProcessAll(xs + ys, compareTo) == ProcessAll(xs, compareTo) + ProcessAll(ys, compareTo)
  {
    if xs != [] {
      assert (xs + ys)[1..] == xs[1..] + ys;
      Stateless(xs[1..], ys, compareTo);
    } else {
      assert xs + ys == ys;
    }
  }

  /** The k-th tuple of a stream is emitted as emissions 3k, 3k+1 and 3k+2,
      exactly as if it had arrived alone. */
  lemma {:induction false} ProcessAllAt<T>(tuples: seq<Pair<T>>, compareTo: (T, T) -> int, k: nat)
    requires k < |tuples|
    ensures ProcessAll(tuples, compareTo)[3 * k..3 * k + 3] == Process(tuples[k], compareTo)
  {
    if k > 0 {
      ProcessAllAt(tuples[1..], compareTo, k - 1);
      var rest := ProcessAll(tuples[1..], compareTo);
      assert ProcessAll(tuples, compareTo)[3 * k..3 * k + 3] == rest[3 * (k - 1)..3 * (k - 1) + 3];
    }
  }
}
