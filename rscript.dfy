/** RScript: an operator that binds the entries of each tuple as variables of
    an embedded R engine, calls the configured R function, and buffers the
    value the function returns on one of six lists according to its type and
    length; at the end of the window every list is emitted on its own port and
    cleared. The R engine is outside the model: its variables are a map the
    binding updates, and the value the function returns is an input. */
module RScript {
  import opened Wrappers
  import HashIteration
  import RVectors
  import Decimal

  /** REXP_TYPE: the declared type of an argument. */
  datatype ArgType =
    | RexpInt
    | RexpDouble
    | RexpStr
    | RexpBool
    | RexpArrayInt
    | RexpArrayDouble
    | RexpArrayStr

  /** A tuple value as the binding's casts see it: an Integer, a Double, a
      String, an array of one of these, or an object of any other class. */
  datatype Value =
    | IntValue(i: int)
    | DoubleValue(d: real)
    | StrValue(s: string)
    | IntArrayValue(ints: seq<int>)
    | DoubleArrayValue(reals: seq<real>)
    | StrArrayValue(strs: seq<string>)
    | OtherValue

  /** An engine variable: the REXP assigned to it, that is its type tag and
      its content. */
  datatype RVar = RVar(tag: ArgType, content: Value)

  datatype Error =
    | MissingArgType(key: string)     // argTypeMap has no entry: the switch throws NullPointerException
    | ClassCast(key: string)          // the cast to the declared type throws ClassCastException
    | UnsupportedType(rtype: int)     // the result type is refused with IllegalArgumentException
    | IndexOutOfBounds(index: int)    // ArrayIndexOutOfBoundsException in getFileName

  /** Does the cast of the declared type accept the value? The scalar types
      cast (`(Integer)`, `(Double)`, `(String)`, and `(Integer)` for booleans);
      the array types hand the object to the engine without a cast. */
  predicate Accepts(t: ArgType, v: Value)
  {
    match t
    case RexpInt => v.IntValue?
    case RexpDouble => v.DoubleValue?
    case RexpStr => v.StrValue?
    case RexpBool => v.IntValue?
    case RexpArrayInt => true
    case RexpArrayDouble => true
    case RexpArrayStr => true
  }

  /** The value an engine variable holds: the single element of the
      one-element array a scalar was wrapped in, or the array as given. */
  function Payload(x: RVar): Value
  {
    match x.tag
    case RexpInt => if x.content.IntArrayValue? && |x.content.ints| == 1 then IntValue(x.content.ints[0]) else OtherValue
    case RexpBool => if x.content.IntArrayValue? && |x.content.ints| == 1 then IntValue(x.content.ints[0]) else OtherValue
    case RexpDouble =>
      if x.content.DoubleArrayValue? && |x.content.reals| == 1 then DoubleValue(x.content.reals[0]) else OtherValue
    case RexpStr => if x.content.StrArrayValue? && |x.content.strs| == 1 then StrValue(x.content.strs[0]) else OtherValue
    case _ => x.content
  }

  /** The REXP one tuple entry is assigned as: a scalar goes into a
      one-element array; an array is passed on as it is. The variable is
      tagged with the declared type and holds exactly the tuple's value. */
  function Bind(t: ArgType, v: Value): (r: Option<RVar>)
    ensures r.Some? <==> Accepts(t, v)
    ensures r.Some? ==> r.value.tag == t && Payload(r.value) == v
  {
    match t
    case RexpInt => if v.IntValue? then Some(RVar(t, IntArrayValue([v.i]))) else None
    case RexpDouble => if v.DoubleValue? then Some(RVar(t, DoubleArrayValue([v.d]))) else None
    case RexpStr => if v.StrValue? then Some(RVar(t, StrArrayValue([v.s]))) else None
    case RexpBool => if v.IntValue? then Some(RVar(t, IntArrayValue([v.i]))) else None
    case RexpArrayInt => Some(RVar(t, v))
    case RexpArrayDouble => Some(RVar(t, v))
    case RexpArrayStr => Some(RVar(t, v))
  }

  /** The entry under key k binds: its key has a declared type and the cast
      of that type accepts its value. */
  predicate Accepted(tuple: map<string, Value>, argTypeMap: map<string, ArgType>, k: string)
    requires k in tuple
  {
    k in argTypeMap && Accepts(argTypeMap[k], tuple[k])
  }

  predicate AllAccepted(tuple: map<string, Value>, argTypeMap: map<string, ArgType>)
  {
    forall k :: k in tuple ==> Accepted(tuple, argTypeMap, k)
  }

  /** The engine variables a tuple whose entries all bind assigns. */
  function Bound(tuple: map<string, Value>, argTypeMap: map<string, ArgType>): (vars: map<string, RVar>)
    requires AllAccepted(tuple, argTypeMap)
    ensures vars.Keys == tuple.Keys
  {
    assert forall k :: k in tuple ==> k in argTypeMap && Accepts(argTypeMap[k], tuple[k]);
    map k | k in tuple :: Bind(argTypeMap[k], tuple[k]).value
  }

  /** The variables the first n entries of an iteration order assign. */
  function BoundPrefix(tuple: map<string, Value>, argTypeMap: map<string, ArgType>, order: seq<string>, n: nat)
    : map<string, RVar>
    requires forall i :: 0 <= i < |order| ==> order[i] in tuple
    requires n <= |order|
    requires forall i :: 0 <= i < n ==> Accepted(tuple, argTypeMap, order[i])
  {
    if n == 0 then map[]
    else
      var k := order[n - 1];
      assert Accepted(tuple, argTypeMap, k);
      BoundPrefix(tuple, argTypeMap, order, n - 1)[k := Bind(argTypeMap[k], tuple[k]).value]
  }

  /** The first n entries assign exactly their own keys, each to its binding. */
  lemma {:induction false} BoundPrefixContents(tuple: map<string, Value>, argTypeMap: map<string, ArgType>,
                                               order: seq<string>, n: nat)
    requires forall i :: 0 <= i < |order| ==> order[i] in tuple
    requires n <= |order|
    requires forall i :: 0 <= i < n ==> Accepted(tuple, argTypeMap, order[i])
    ensures forall k :: k in BoundPrefix(tuple, argTypeMap, order, n) <==> k in order[..n]
    ensures forall k :: k in BoundPrefix(tuple, argTypeMap, order, n) ==>
      k in tuple && Accepted(tuple, argTypeMap, k) &&
      BoundPrefix(tuple, argTypeMap, order, n)[k] == Bind(argTypeMap[k], tuple[k]).value
  {
    if n > 0 {
      BoundPrefixContents(tuple, argTypeMap, order, n - 1);
      assert order[..n] == order[..n - 1] + [order[n - 1]];
    }
  }

  /** The frame of a binding: every variable bound before stays, and each
      variable is either as before or bound to the binding of a tuple entry
      of its name. */
  predicate BindsWithin(env: map<string, RVar>, env': map<string, RVar>,
                        tuple: map<string, Value>, argTypeMap: map<string, ArgType>)
  {
    && env.Keys <= env'.Keys
    && forall k :: k in env' ==>
         (k in env && env'[k] == env[k]) ||
         (k in tuple && Accepted(tuple, argTypeMap, k) && env'[k] == Bind(argTypeMap[k], tuple[k]).value)
  }

  /** Binding a prefix of the entries stays within the frame. */
  lemma PrefixWithin(env: map<string, RVar>, tuple: map<string, Value>, argTypeMap: map<string, ArgType>,
                     order: seq<string>, n: nat)
    requires forall i :: 0 <= i < |order| ==> order[i] in tuple
    requires n <= |order|
    requires forall i :: 0 <= i < n ==> Accepted(tuple, argTypeMap, order[i])
    ensures BindsWithin(env, env + BoundPrefix(tuple, argTypeMap, order, n), tuple, argTypeMap)
  {
    BoundPrefixContents(tuple, argTypeMap, order, n);
  }

  /** Binding all the entries, in any iteration order, binds the whole tuple. */
  lemma PrefixComplete(tuple: map<string, Value>, argTypeMap: map<string, ArgType>, order: seq<string>)
    requires HashIteration.IsOrderOf(order, tuple.Keys)
    requires forall i :: 0 <= i < |order| ==> Accepted(tuple, argTypeMap, order[i])
    ensures AllAccepted(tuple, argTypeMap)
    ensures BoundPrefix(tuple, argTypeMap, order, |order|) == Bound(tuple, argTypeMap)
  {
    BoundPrefixContents(tuple, argTypeMap, order, |order|);
    assert order[..|order|] == order;
  }

  /** One more entry bound. */
  lemma PrefixStep(env: map<string, RVar>, tuple: map<string, Value>, argTypeMap: map<string, ArgType>,
                   order: seq<string>, n: nat)
    requires forall i :: 0 <= i < |order| ==> order[i] in tuple
    requires n < |order|
    requires forall i :: 0 <= i <= n ==> Accepted(tuple, argTypeMap, order[i])
    ensures env + BoundPrefix(tuple, argTypeMap, order, n + 1) ==
            (env + BoundPrefix(tuple, argTypeMap, order, n))[order[n] := Bind(argTypeMap[order[n]], tuple[order[n]]).value]
  {
  }

  /** What binding a tuple achieves: it succeeds exactly when every entry
      binds, and then adds the tuple's bindings to the variables; otherwise
      the error names an entry that does not bind, for the reason it does
      not; either way every variable stays within the frame. */
  predicate BindOutcome(env: map<string, RVar>, tuple: map<string, Value>, argTypeMap: map<string, ArgType>,
                        env': map<string, RVar>, err: Option<Error>)
  {
    && (err.None? <==> AllAccepted(tuple, argTypeMap))
    && (err.None? ==> env' == env + Bound(tuple, argTypeMap))
    && (err.Some? ==> (err.value.MissingArgType? || err.value.ClassCast?) &&
                      err.value.key in tuple && !Accepted(tuple, argTypeMap, err.value.key))
    && (err.Some? && err.value.MissingArgType? ==> err.value.key !in argTypeMap)
    && BindsWithin(env, env', tuple, argTypeMap)
  }

  /** The error an entry that does not bind raises. */
  function Refusal(tuple: map<string, Value>, argTypeMap: map<string, ArgType>, k: string): (e: Error)
    requires k in tuple && !Accepted(tuple, argTypeMap, k)
    ensures (e.MissingArgType? || e.ClassCast?) && e.key == k
    ensures e.MissingArgType? <==> k !in argTypeMap
  {
    if k in argTypeMap then ClassCast(k) else MissingArgType(k)
  }

  /** The loop stopped at entry n, the first one that does not bind. */
  lemma BindStopped(env: map<string, RVar>, tuple: map<string, Value>, argTypeMap: map<string, ArgType>,
                    order: seq<string>, n: nat, env': map<string, RVar>, err: Option<Error>)
    requires HashIteration.IsOrderOf(order, tuple.Keys)
    requires n < |order|
    requires forall i :: 0 <= i < n ==> Accepted(tuple, argTypeMap, order[i])
    requires env' == env + BoundPrefix(tuple, argTypeMap, order, n)
    requires !Accepted(tuple, argTypeMap, order[n])
    requires err == Some(Refusal(tuple, argTypeMap, order[n]))
    ensures BindOutcome(env, tuple, argTypeMap, env', err)
  {
    PrefixWithin(env, tuple, argTypeMap, order, n);
  }

  /** The loop bound every entry. */
  lemma BindCompleted(env: map<string, RVar>, tuple: map<string, Value>, argTypeMap: map<string, ArgType>,
                      order: seq<string>, env': map<string, RVar>)
    requires HashIteration.IsOrderOf(order, tuple.Keys)
    requires forall i :: 0 <= i < |order| ==> Accepted(tuple, argTypeMap, order[i])
    requires env' == env + BoundPrefix(tuple, argTypeMap, order, |order|)
    ensures BindOutcome(env, tuple, argTypeMap, env', None)
  {
    PrefixWithin(env, tuple, argTypeMap, order, |order|);
    PrefixComplete(tuple, argTypeMap, order);
  }

  /** The binding loop of `processTuple`: each tuple entry, in the HashMap's
      iteration order, is assigned to the engine variable of its name. The
      first entry whose key has no declared type, or whose value the declared
      type's cast refuses, ends the loop with an error; the variables bound
      before it stay bound. */
  method BindArguments(env: map<string, RVar>, tuple: map<string, Value>, argTypeMap: map<string, ArgType>)
    returns (env': map<string, RVar>, err: Option<Error>)
    ensures BindOutcome(env, tuple, argTypeMap, env', err)
  {
    var order := HashIteration.IterationOrder(tuple.Keys);
    env', err := env, None;
    var i := 0;
    while i < |order| && err.None?
      invariant 0 <= i <= |order|
      invariant forall j :: 0 <= j < i ==> Accepted(tuple, argTypeMap, order[j])
      invariant env' == env + BoundPrefix(tuple, argTypeMap, order, i)
      invariant err.Some? ==> i < |order| && !Accepted(tuple, argTypeMap, order[i]) && err.value == Refusal(tuple, argTypeMap, order[i])
      decreases |order| - i, err.None?
    {
      var key := order[i];
      if key !in argTypeMap {
        err := Some(MissingArgType(key));
      } else if !Accepts(argTypeMap[key], tuple[key]) {
        err := Some(ClassCast(key));
      } else {
        PrefixStep(env, tuple, argTypeMap, order, i);
        env' := env'[key := Bind(argTypeMap[key], tuple[key]).value];
        i := i + 1;
      }
    }
    if err.Some? {
      BindStopped(env, tuple, argTypeMap, order, i, env', err);
    } else {
      BindCompleted(env, tuple, argTypeMap, order, env');
    }
  }

  /** The value the R function returns, as far as the dispatch looks at it:
      an integer, real or string vector, or a result of some other type with
      its type number. */
  datatype RExp =
    | IntSxp(ints: seq<int>)
    | RealSxp(reals: seq<real>)
    | StrSxp(strs: seq<string>)
    | OtherSxp(rtype: int)

  /** The number of elements of a vector result. */
  function Length(r: RExp): nat
  {
    match r
    case IntSxp(v) => |v|
    case RealSxp(v) => |v|
    case StrSxp(v) => |v|
    case OtherSxp(_) => 0
  }

  /** One buffered, and later emitted, item; the constructor names the list
      and the output port it belongs to. A string scalar is `null` (None)
      when the result vector is empty. */
  datatype Item =
    | IntItem(i: int)
    | DoubleItem(d: real)
    | StrItem(s: Option<string>)
    | IntArrayItem(ints: seq<int>)
    | DoubleArrayItem(reals: seq<real>)
    | StrArrayItem(strs: seq<string>)

  predicate IsArray(item: Item)
  {
    item.IntArrayItem? || item.DoubleArrayItem? || item.StrArrayItem?
  }

  /** The vector an item stands for. */
  function Vector(item: Item): RExp
  {
    match item
    case IntItem(i) => IntSxp([i])
    case DoubleItem(d) => RealSxp([d])
    case StrItem(s) => if s.Some? then StrSxp([s.value]) else StrSxp([])
    case IntArrayItem(v) => IntSxp(v)
    case DoubleArrayItem(v) => RealSxp(v)
    case StrArrayItem(v) => StrSxp(v)
  }

  /** The item is of the result's type: int results go to the int lists, and
      so on. */
  predicate SameType(item: Item, r: RExp)
  {
    match item
    case IntItem(_) => r.IntSxp?
    case IntArrayItem(_) => r.IntSxp?
    case DoubleItem(_) => r.RealSxp?
    case DoubleArrayItem(_) => r.RealSxp?
    case StrItem(_) => r.StrSxp?
    case StrArrayItem(_) => r.StrSxp?
  }

  /** What `asInt`, `asDouble` and `asString` return for a vector of at most one
      element: the element, or the default for an empty vector. */
  function FirstOr<T>(s: seq<T>, default: T): T
  {
    if |s| > 0 then s[0] else default
  }

  /** The dispatch on the result's type and length. A vector of more than one
      element becomes an array item and a shorter one a scalar item, of the
      vector's own type; the item gives back the vector whenever it is not
      empty; any other type is refused. */
  function Classify(r: RExp): (res: Result<Item, Error>)
    ensures res.Success? <==> !r.OtherSxp?
    ensures res.Failure? ==> res.error == UnsupportedType(r.rtype)
    ensures res.Success? ==> SameType(res.value, r) && (IsArray(res.value) <==> Length(r) > 1)
    ensures res.Success? && Length(r) > 0 ==> Vector(res.value) == r
  {
    match r
    case IntSxp(v) => if |v| > 1 then Success(IntArrayItem(v)) else Success(IntItem(FirstOr(v, 0)))
    case RealSxp(v) => if |v| > 1 then Success(DoubleArrayItem(v)) else Success(DoubleItem(FirstOr(v, 0.0)))
    case StrSxp(v) =>
      if |v| > 1 then Success(StrArrayItem(v))
      else Success(StrItem(if |v| > 0 then Some(v[0]) else None))
    case OtherSxp(t) => Failure(UnsupportedType(t))
  }

  /** The contents of the six lists. */
  datatype Lists = Lists(
    ints: seq<int>,
    doubles: seq<real>,
    strs: seq<Option<string>>,
    intArrays: seq<seq<int>>,
    doubleArrays: seq<seq<real>>,
    strArrays: seq<seq<string>>)

  const NoLists := Lists([], [], [], [], [], [])

  /** Appending an item to the list of its type. */
  function Push(b: Lists, item: Item): Lists
  {
    match item
    case IntItem(i) => b.(ints := b.ints + [i])
    case DoubleItem(d) => b.(doubles := b.doubles + [d])
    case StrItem(s) => b.(strs := b.strs + [s])
    case IntArrayItem(v) => b.(intArrays := b.intArrays + [v])
    case DoubleArrayItem(v) => b.(doubleArrays := b.doubleArrays + [v])
    case StrArrayItem(v) => b.(strArrays := b.strArrays + [v])
  }

  /** The six output ports. */
  datatype Port = IntOutput | DoubleOutput | StrOutput | IntArrayOutput | DoubleArrayOutput | StrArrayOutput

  function PortOf(item: Item): Port
  {
    match item
    case IntItem(_) => IntOutput
    case DoubleItem(_) => DoubleOutput
    case StrItem(_) => StrOutput
    case IntArrayItem(_) => IntArrayOutput
    case DoubleArrayItem(_) => DoubleArrayOutput
    case StrArrayItem(_) => StrArrayOutput
  }

  /** The tuple each list's element is emitted as. */
  function WrapInt(x: int): Item { IntItem(x) }
  function WrapDouble(x: real): Item { DoubleItem(x) }
  function WrapStr(x: Option<string>): Item { StrItem(x) }
  function WrapIntArray(x: seq<int>): Item { IntArrayItem(x) }
  function WrapDoubleArray(x: seq<real>): Item { DoubleArrayItem(x) }
  function WrapStrArray(x: seq<string>): Item { StrArrayItem(x) }

  /** The items of a list, each wrapped for its port. */
  function Each<T>(items: seq<T>, wrap: T -> Item): (out: seq<Item>)
    ensures |out| == |items|
  {
    seq(|items|, i requires 0 <= i < |items| => wrap(items[i]))
  }

  lemma EachAt<T>(items: seq<T>, wrap: T -> Item)
    ensures forall i :: 0 <= i < |items| ==> Each(items, wrap)[i] == wrap(items[i])
  {
  }

  /** What one port's list emits. */
  function Section(b: Lists, p: Port): seq<Item>
  {
    match p
    case IntOutput => Each(b.ints, WrapInt)
    case DoubleOutput => Each(b.doubles, WrapDouble)
    case StrOutput => Each(b.strs, WrapStr)
    case IntArrayOutput => Each(b.intArrays, WrapIntArray)
    case DoubleArrayOutput => Each(b.doubleArrays, WrapDoubleArray)
    case StrArrayOutput => Each(b.strArrays, WrapStrArray)
  }

  /** The total number of buffered items. */
  function Size(b: Lists): nat
  {
    |b.ints| + |b.doubles| + |b.strs| + |b.intArrays| + |b.doubleArrays| + |b.strArrays|
  }

  /** A buffered item grows exactly its own port's list, by exactly that
      item at the end, and leaves the other five lists as they were. */
  lemma PushGrowsOneList(b: Lists, item: Item, p: Port)
    ensures Size(Push(b, item)) == Size(b) + 1
    ensures p == PortOf(item) ==> Section(Push(b, item), p) == Section(b, p) + [item]
    ensures p != PortOf(item) ==> Section(Push(b, item), p) == Section(b, p)
  {
    match item
    case IntItem(x) => EachAppend(b.ints, x, WrapInt);
    case DoubleItem(x) => EachAppend(b.doubles, x, WrapDouble);
    case StrItem(x) => EachAppend(b.strs, x, WrapStr);
    case IntArrayItem(x) => EachAppend(b.intArrays, x, WrapIntArray);
    case DoubleArrayItem(x) => EachAppend(b.doubleArrays, x, WrapDoubleArray);
    case StrArrayItem(x) => EachAppend(b.strArrays, x, WrapStrArray);
  }

  lemma EachAppend<T>(items: seq<T>, x: T, wrap: T -> Item)
    ensures Each(items + [x], wrap) == Each(items, wrap) + [wrap(x)]
  {
    EachAt(items, wrap);
    EachAt(items + [x], wrap);
  }

  /** `endWindow`'s emissions: the int list, then the double, int array,
      double array, string array and string lists, each in insertion order. */
  function Emitted(b: Lists): (out: seq<Item>)
    ensures |out| == Size(b)
  {
    (Section(b, IntOutput) + Section(b, DoubleOutput) + Section(b, IntArrayOutput)) +
    (Section(b, DoubleArrayOutput) + Section(b, StrArrayOutput) + Section(b, StrOutput))
  }

  /** The emissions on one port. */
  function OnPort(out: seq<Item>, p: Port): (r: seq<Item>)
    ensures |r| <= |out|
  {
    if out == [] then []
    else if PortOf(out[0]) == p then [out[0]] + OnPort(out[1..], p)
    else OnPort(out[1..], p)
  }

  lemma {:induction false} OnPortAppend(xs: seq<Item>, ys: seq<Item>, p: Port)
    ensures OnPort(xs + ys, p) == OnPort(xs, p) + OnPort(ys, p)
  {
    if xs == [] {
      assert xs + ys == ys;
    } else {
      assert (xs + ys)[0] == xs[0];
      assert (xs + ys)[1..] == xs[1..] + ys;
      OnPortAppend(xs[1..], ys, p);
    }
  }

  /** A section is wholly on its own port and on no other. */
  lemma {:induction false} OnPortSection(xs: seq<Item>, q: Port, p: Port)
    requires forall i :: 0 <= i < |xs| ==> PortOf(xs[i]) == q
    ensures OnPort(xs, p) == if p == q then xs else []
  {
    if xs != [] {
      OnPortSection(xs[1..], q, p);
      assert xs == [xs[0]] + xs[1..];
    }
  }

  /** One list's section is wholly on that list's port. */
  lemma SectionOnPort(b: Lists, q: Port, p: Port)
    ensures OnPort(Section(b, q), p) == if p == q then Section(b, q) else []
  {
    match q {
      case IntOutput => EachAt(b.ints, WrapInt);
      case DoubleOutput => EachAt(b.doubles, WrapDouble);
      case StrOutput => EachAt(b.strs, WrapStr);
      case IntArrayOutput => EachAt(b.intArrays, WrapIntArray);
      case DoubleArrayOutput => EachAt(b.doubleArrays, WrapDoubleArray);
      case StrArrayOutput => EachAt(b.strArrays, WrapStrArray);
    }
    OnPortSection(Section(b, q), q, p);
  }

  /** Every buffered item is emitted on its type's port, in insertion order,
      and a port receives nothing else. */
  lemma EmittedOnPort(b: Lists, p: Port)
    ensures OnPort(Emitted(b), p) == Section(b, p)
  {
    var s1, s2, s3 := Section(b, IntOutput), Section(b, DoubleOutput), Section(b, IntArrayOutput);
    var s4, s5, s6 := Section(b, DoubleArrayOutput), Section(b, StrArrayOutput), Section(b, StrOutput);
    SectionOnPort(b, IntOutput, p);
    SectionOnPort(b, DoubleOutput, p);
    SectionOnPort(b, IntArrayOutput, p);
    SectionOnPort(b, DoubleArrayOutput, p);
    SectionOnPort(b, StrArrayOutput, p);
    SectionOnPort(b, StrOutput, p);
    ThreeOnPort(s1, s2, s3, p);
    ThreeOnPort(s4, s5, s6, p);
    OnPortAppend(s1 + s2 + s3, s4 + s5 + s6, p);
  }

  /** The emissions on a port of three sections in a row are those of each
      section in turn. */
  lemma ThreeOnPort(s1: seq<Item>, s2: seq<Item>, s3: seq<Item>, p: Port)
    ensures OnPort(s1 + s2 + s3, p) == OnPort(s1, p) + OnPort(s2, p) + OnPort(s3, p)
  {
    OnPortAppend(s1, s2, p);
    OnPortAppend(s1 + s2, s3, p);
  }

  /** The `for` loop that emits one list's items on its port. */
  method EmitAll<T>(items: seq<T>, wrap: T -> Item) returns (out: seq<Item>)
    ensures out == Each(items, wrap)
  {
    EachAt(items, wrap);
    out := [];
    var i := 0;
    while i < |items|
      invariant 0 <= i <= |items|
      invariant |out| == i && forall j :: 0 <= j < i ==> out[j] == wrap(items[j])
    {
      out := out + [wrap(items[i])];
      i := i + 1;
    }
  }

  /** The six `for` loops of `endWindow`, in their order. */
  method EmitLists(b: Lists) returns (out: seq<Item>)
    ensures out == Emitted(b)
  {
    var ints := EmitAll(b.ints, WrapInt);
    var doubles := EmitAll(b.doubles, WrapDouble);
    var intArrays := EmitAll(b.intArrays, WrapIntArray);
    var doubleArrays := EmitAll(b.doubleArrays, WrapDoubleArray);
    var strArrays := EmitAll(b.strArrays, WrapStrArray);
    var strs := EmitAll(b.strs, WrapStr);
    out := (ints + doubles + intArrays) + (doubleArrays + strArrays + strs);
  }

  /** The pieces of s between occurrences of sep, all of them: one more than
      there are separators. */
  function Pieces(s: string, sep: char): (ps: seq<string>)
    ensures |ps| > 0
  {
    if s == [] then [""]
    else
      var rest := Pieces(s[1..], sep);
      if s[0] == sep then [""] + rest else [[s[0]] + rest[0]] + rest[1..]
  }

  /** The pieces joined back with the separator. */
  function Join(ps: seq<string>, sep: char): string
    requires |ps| > 0
  {
    if |ps| == 1 then ps[0] else ps[0] + [sep] + Join(ps[1..], sep)
  }

  /** Joining after a character put in front of the first piece. */
  lemma JoinFirst(ps: seq<string>, sep: char, c: char)
    requires |ps| > 0
    ensures Join([[c] + ps[0]] + ps[1..], sep) == [c] + Join(ps, sep)
  {
    var qs := [[c] + ps[0]] + ps[1..];
    assert qs[1..] == ps[1..];
    if |ps| > 1 {
      assert Join(qs, sep) == [c] + ps[0] + [sep] + Join(ps[1..], sep);
    }
  }

  /** Splitting and joining again gives back the string. */
  lemma {:induction false} JoinPieces(s: string, sep: char)
    ensures Join(Pieces(s, sep), sep) == s
  {
    if s != [] {
      var rest := Pieces(s[1..], sep);
      JoinPieces(s[1..], sep);
      if s[0] == sep {
        assert ([""] + rest)[1..] == rest;
        assert s == [sep] + s[1..];
      } else {
        JoinFirst(rest, sep, s[0]);
        assert s == [s[0]] + s[1..];
      }
    }
  }

  /** The split of a string with a separator in place: the pieces of the
      part before it, then the pieces of the part after it. */
  lemma {:induction false} PiecesAround(x: string, sep: char, y: string)
    ensures Pieces(x + [sep] + y, sep) == Pieces(x, sep) + Pieces(y, sep)
  {
    var s := x + [sep] + y;
    if x == [] {
      assert s == [sep] + y;
      assert s[1..] == y;
    } else {
      assert s[0] == x[0];
      assert s[1..] == x[1..] + [sep] + y;
      PiecesAround(x[1..], sep, y);
      var r, q := Pieces(x[1..], sep), Pieces(y, sep);
      if x[0] == sep {
        assert Pieces(s, sep) == [""] + (r + q);
      } else {
        assert (r + q)[0] == r[0];
        assert (r + q)[1..] == r[1..] + q;
        assert Pieces(s, sep) == [[x[0]] + r[0]] + (r[1..] + q);
      }
    }
  }

  /** A string without the separator is a single piece. */
  lemma {:induction false} PiecesWithoutSeparator(s: string, sep: char)
    requires sep !in s
    ensures Pieces(s, sep) == [s]
  {
    if s != [] {
      PiecesWithoutSeparator(s[1..], sep);
      assert s == [s[0]] + s[1..];
    }
  }

  /** The pieces with the empty ones at the end removed. */
  function DropTrailingEmpty(ps: seq<string>): (r: seq<string>)
    ensures |r| <= |ps| && r == ps[..|r|]
    ensures r != [] ==> r[|r| - 1] != ""
    ensures forall i :: |r| <= i < |ps| ==> ps[i] == ""
  {
    if ps != [] && ps[|ps| - 1] == "" then DropTrailingEmpty(ps[..|ps| - 1]) else ps
  }

  /** `String.split` with the one-character separator (no regular-expression
      meta-character): a string without the separator is its own single
      piece; otherwise all pieces, with the trailing empty ones removed. */
  function Split(s: string, sep: char): seq<string>
  {
    if sep !in s then [s] else DropTrailingEmpty(Pieces(s, sep))
  }

  /** `data[data.length - 1]`: the last piece of the split path. */
  function FileNameOf(path: string, sep: char): Result<string, Error>
  {
    var data := Split(path, sep);
    if |data| == 0 then Failure(IndexOutOfBounds(-1)) else Success(data[|data| - 1])
  }

  /** No piece holds the separator. */
  lemma {:induction false} PiecesHaveNoSeparator(s: string, sep: char)
    ensures forall i :: 0 <= i < |Pieces(s, sep)| ==> sep !in Pieces(s, sep)[i]
  {
    if s != [] {
      PiecesHaveNoSeparator(s[1..], sep);
      var rest := Pieces(s[1..], sep);
      if s[0] != sep {
        assert sep !in rest[0];
        assert sep !in [s[0]] + rest[0];
      }
    }
  }

  /** A file name holds no separator. */
  lemma FileNameHasNoSeparator(path: string, sep: char)
    requires FileNameOf(path, sep).Success?
    ensures sep !in FileNameOf(path, sep).value
  {
    PiecesHaveNoSeparator(path, sep);
  }

  /** The name of a file in a directory is what getFileName takes from its path. */
  lemma FileNameOfPath(dir: string, sep: char, name: string)
    requires name != "" && sep !in name
    ensures FileNameOf(dir + [sep] + name, sep) == Success(name)
  {
    var path := dir + [sep] + name;
    assert path[|dir|] == sep;
    PiecesAround(dir, sep, name);
    PiecesWithoutSeparator(name, sep);
    var ps := Pieces(path, sep);
    assert ps[|ps| - 1] == name;
    assert DropTrailingEmpty(ps) == ps;
  }

  /** Whenever getFileName finds a name, it is the last non-empty piece of
      the path: a piece after which only empty pieces follow. It is empty
      only for the empty path. */
  lemma FileNameLastPiece(path: string, sep: char)
    requires FileNameOf(path, sep).Success?
    ensures exists i :: 0 <= i < |Pieces(path, sep)| && Pieces(path, sep)[i] == FileNameOf(path, sep).value
              && forall j :: i < j < |Pieces(path, sep)| ==> Pieces(path, sep)[j] == ""
    ensures FileNameOf(path, sep).value == "" ==> path == ""
  {
    var ps := Pieces(path, sep);
    if sep !in path {
      PiecesWithoutSeparator(path, sep);
      assert ps[0] == path;
    } else {
      var r := DropTrailingEmpty(ps);
      assert ps[|r| - 1] == r[|r| - 1];
    }
  }

  /** A path without a separator is its own file name. */
  lemma FileNameOfBareName(name: string, sep: char)
    requires sep !in name
    ensures FileNameOf(name, sep) == Success(name)
  {
  }

  /** A trailing separator is dropped with the empty piece after it: the
      path dir/name/ gives name. */
  lemma FileNameOfTrailingSeparator(dir: string, sep: char, name: string)
    requires name != "" && sep !in name
    ensures FileNameOf(dir + [sep] + name + [sep], sep) == Success(name)
  {
    var path := dir + [sep] + name + [sep];
    assert path[|dir|] == sep;
    PiecesOfTrailing(dir, sep, name);
    DropLastEmpty(Pieces(dir, sep), name);
  }

  lemma PiecesOfTrailing(dir: string, sep: char, name: string)
    requires sep !in name
    ensures Pieces(dir + [sep] + name + [sep], sep) == Pieces(dir, sep) + [name] + [""]
  {
    assert dir + [sep] + name + [sep] == dir + [sep] + (name + [sep] + "");
    PiecesAround(dir, sep, name + [sep] + "");
    PiecesAround(name, sep, "");
    PiecesWithoutSeparator(name, sep);
  }

  lemma DropLastEmpty(ps: seq<string>, name: string)
    requires name != ""
    ensures DropTrailingEmpty(ps + [name] + [""]) == ps + [name]
  {
    var qs := ps + [name] + [""];
    assert qs[..|qs| - 1] == ps + [name];
  }

  /** getFileName fails exactly on a non-empty path made of separators only:
      the split then has no piece at all. */
  lemma FileNameFailure(path: string, sep: char)
    ensures FileNameOf(path, sep).Failure? <==> |path| > 0 && forall i :: 0 <= i < |path| ==> path[i] == sep
  {
    if |path| > 0 && forall i :: 0 <= i < |path| ==> path[i] == sep {
      assert path[0] == sep;
      AllSeparators(path, sep);
    }
    if FileNameOf(path, sep).Failure? {
      assert sep in path;
      var ps := Pieces(path, sep);
      assert |DropTrailingEmpty(ps)| == 0;
      assert forall i :: 0 <= i < |ps| ==> ps[i] == "";
      JoinPieces(path, sep);
      JoinEmpty(ps, sep);
    }
  }

  /** A string of separators only splits into empty pieces. */
  lemma {:induction false} AllSeparators(s: string, sep: char)
    requires forall i :: 0 <= i < |s| ==> s[i] == sep
    ensures forall i :: 0 <= i < |Pieces(s, sep)| ==> Pieces(s, sep)[i] == ""
  {
    if s != [] {
      assert s[0] == sep;
      AllSeparators(s[1..], sep);
    }
  }

  /** Joining empty pieces gives separators only. */
  lemma {:induction false} JoinEmpty(ps: seq<string>, sep: char)
    requires |ps| > 0 && forall i :: 0 <= i < |ps| ==> ps[i] == ""
    ensures forall i :: 0 <= i < |Join(ps, sep)| ==> Join(ps, sep)[i] == sep
  {
    if |ps| > 1 {
      JoinEmpty(ps[1..], sep);
      assert Join(ps, sep) == [sep] + Join(ps[1..], sep);
    }
  }

  /** `getFileName`: the temporary directory, the separator, the file name
      of the script path, the current time in milliseconds and, after an
      underscore, the thread id. The clock and the thread id are inputs. */
  function TempFileName(tmpdir: string, sep: char, scriptFilePath: string, millis: int, threadId: int)
    : (r: Result<string, Error>)
    ensures r.Success? <==> FileNameOf(scriptFilePath, sep).Success?
  {
    match FileNameOf(scriptFilePath, sep)
    case Failure(e) => Failure(e)
    case Success(name) => Success(tmpdir + [sep] + name + Decimal.IntToString(millis) + "_" + Decimal.IntToString(threadId))
  }

  /** For a script at dir/name the temporary name is the temporary
      directory, the separator, name, the time and, after an underscore,
      the thread id. */
  lemma TempFileNameOfPath(tmpdir: string, sep: char, dir: string, name: string, millis: int, threadId: int)
    requires name != "" && sep !in name
    ensures TempFileName(tmpdir, sep, dir + [sep] + name, millis, threadId) ==
            Success(tmpdir + [sep] + name + Decimal.IntToString(millis) + "_" + Decimal.IntToString(threadId))
  {
    FileNameOfPath(dir, sep, name);
  }

  lemma NoUnderscore(n: int)
    ensures '_' !in Decimal.IntToString(n)
  {
    var s := Decimal.IntToString(n);
    if n < 0 {
      assert s == "-" + Decimal.NatToString(-n);
      assert forall i :: 1 <= i < |s| ==> s[i] == Decimal.NatToString(-n)[i - 1];
    }
  }

  /** A string cut at a mark character that the first part does not contain
      is cut at the first occurrence of the mark, so the parts are unique. */
  lemma SplitAtMark(x: string, y: string, u: string, v: string, c: char)
    requires c !in x && c !in u
    requires x + [c] + y == u + [c] + v
    ensures x == u && y == v
  {
    var s := x + [c] + y;
    assert forall j :: 0 <= j < |x| ==> s[j] == x[j];
    assert forall j :: 0 <= j < |u| ==> s[j] == u[j];
    assert s[|x|] == c && s[|u|] == c;
    assert |x| == |u|;
    assert x == s[..|x|] == u;
    assert y == s[|x| + 1..] == v;
  }

  /** Two temporary names for the same script differ whenever the time or the
      thread id differs, which is what makes them unique. The uniqueness holds
      for one script only; TempFileNamesCollideAcrossScripts shows two
      scripts whose names meet. */
  lemma TempFileNamesDistinct(tmpdir: string, sep: char, scriptFilePath: string,
                              millis: int, threadId: int, millis': int, threadId': int)
    requires TempFileName(tmpdir, sep, scriptFilePath, millis, threadId).Success?
    requires TempFileName(tmpdir, sep, scriptFilePath, millis, threadId) ==
             TempFileName(tmpdir, sep, scriptFilePath, millis', threadId')
    ensures millis == millis' && threadId == threadId'
  {
    var prefix := tmpdir + [sep] + FileNameOf(scriptFilePath, sep).value;
    var a, b := Decimal.IntToString(millis), Decimal.IntToString(threadId);
    var a', b' := Decimal.IntToString(millis'), Decimal.IntToString(threadId');
    var t := TempFileName(tmpdir, sep, scriptFilePath, millis, threadId).value;
    assert t == prefix + (a + ['_'] + b);
    assert t == prefix + (a' + ['_'] + b');
    assert a + ['_'] + b == t[|prefix|..] == a' + ['_'] + b';
    NoUnderscore(millis);
    NoUnderscore(millis');
    SplitAtMark(a, b, a', b', '_');
    Decimal.IntToStringInjective(millis, millis');
    Decimal.IntToStringInjective(threadId, threadId');
  }

  /** The time is appended to the file name without a separator, so a
      character moved from the end of the name to the front of the time
      leaves the temporary name unchanged. */
  lemma TempFileNameShift(tmpdir: string, sep: char, dir: string, name: string, c: char,
                          millis: int, millis': int, threadId: int)
    requires name != "" && sep !in name && c != sep
    requires Decimal.IntToString(millis') == [c] + Decimal.IntToString(millis)
    ensures TempFileName(tmpdir, sep, dir + [sep] + (name + [c]), millis, threadId).Success?
    ensures TempFileName(tmpdir, sep, dir + [sep] + (name + [c]), millis, threadId) ==
            TempFileName(tmpdir, sep, dir + [sep] + name, millis', threadId)
  {
    TempFileNameOfPath(tmpdir, sep, dir, name + [c], millis, threadId);
    TempFileNameOfPath(tmpdir, sep, dir, name, millis', threadId);
    ShiftMark(tmpdir, sep, name, c, Decimal.IntToString(millis), Decimal.IntToString(threadId));
  }

  lemma ShiftMark(tmpdir: string, sep: char, name: string, c: char, t: string, id: string)
    ensures tmpdir + [sep] + (name + [c]) + t + "_" + id == tmpdir + [sep] + name + ([c] + t) + "_" + id
  {
    var p := tmpdir + [sep];
    assert p + (name + [c]) + t == p + name + ([c] + t);
  }

  lemma Texts23And123()
    ensures Decimal.IntToString(123) == ['1'] + Decimal.IntToString(23)
  {
    assert Decimal.IntToString(23) == "23";
    assert Decimal.IntToString(123) == "123";
  }

  /** Two scripts can share a temporary name: x1 at time 23 and x at time
      123, on the same thread and in the same directory. */
  lemma TempFileNamesCollideAcrossScripts(tmpdir: string, sep: char, dir: string, threadId: int)
    requires sep != 'x' && sep != '1'
    ensures TempFileName(tmpdir, sep, dir + [sep] + "x1", 23, threadId).Success?
    ensures TempFileName(tmpdir, sep, dir + [sep] + "x1", 23, threadId) ==
            TempFileName(tmpdir, sep, dir + [sep] + "x", 123, threadId)
  {
    Texts23And123();
    assert "x" + ['1'] == "x1";
    TempFileNameShift(tmpdir, sep, dir, "x", '1', 23, 123, threadId);
  }

  class RScriptOperator {
    /** The declared type of each argument name. */
    var argTypeMap: map<string, ArgType>
    /** The R engine's variables. */
    var env: map<string, RVar>
    var intList: seq<int>
    var doubleList: seq<real>
    var strList: seq<Option<string>>
    var intArrayList: seq<seq<int>>
    var doubleArrayList: seq<seq<real>>
    var strArrayList: seq<seq<string>>

    /** The six lists. */
    function Pending(): Lists
      reads this
    {
      Lists(intList, doubleList, strList, intArrayList, doubleArrayList, strArrayList)
    }

    constructor (argTypeMap: map<string, ArgType>)
      ensures this.argTypeMap == argTypeMap && env == map[] && Pending() == NoLists
    {
      this.argTypeMap := argTypeMap;
      env := map[];
      intList, doubleList, strList := [], [], [];
      intArrayList, doubleArrayList, strArrayList := [], [], [];
    }

    /** `processTuple`: bind the tuple's entries, then buffer the value the R
        function returns (retVal) by its type and length; an array result is
        copied element by element. A binding error leaves the variables bound
        so far and the lists as they were; so does a result of an unsupported
        type. */
    method ProcessTuple(tuple: map<string, Value>, retVal: RExp) returns (err: Option<Error>)
      modifies this
      ensures argTypeMap == old(argTypeMap)
      ensures err.None? <==> AllAccepted(tuple, argTypeMap) && Classify(retVal).Success?
      ensures AllAccepted(tuple, argTypeMap) ==> env == old(env) + Bound(tuple, argTypeMap)
      ensures !AllAccepted(tuple, argTypeMap) ==>
        err.Some? && (err.value.MissingArgType? || err.value.ClassCast?) &&
        err.value.key in tuple && !Accepted(tuple, argTypeMap, err.value.key)
      ensures AllAccepted(tuple, argTypeMap) && retVal.OtherSxp? ==> err == Some(UnsupportedType(retVal.rtype))
      ensures BindsWithin(old(env), env, tuple, argTypeMap)
      ensures err.None? ==> Pending() == Push(old(Pending()), Classify(retVal).value)
      ensures err.Some? ==> Pending() == old(Pending())
    {
      var env', bindError := BindArguments(env, tuple, argTypeMap);
      env := env';
      if bindError.Some? {
        return bindError;
      }
      err := None;
      match retVal
      case IntSxp(values) =>
        if |values| > 1 {
          var a := RVectors.CopyToArray(values);
          intArrayList := intArrayList + [a[..]];
        } else {
          intList := intList + [FirstOr(values, 0)];
        }
      case RealSxp(values) =>
        if |values| > 1 {
          var a := RVectors.CopyToArray(values);
          doubleArrayList := doubleArrayList + [a[..]];
        } else {
          doubleList := doubleList + [FirstOr(values, 0.0)];
        }
      case StrSxp(values) =>
        if |values| > 1 {
          var a := RVectors.CopyToArray(values);
          strArrayList := strArrayList + [a[..]];
        } else {
          strList := strList + [if |values| > 0 then Some(values[0]) else None];
        }
      case OtherSxp(rtype) =>
        err := Some(UnsupportedType(rtype));
    }

    /** `endWindow`: emit every list in turn, each in insertion order, and
        clear it. */
    method EndWindow() returns (out: seq<Item>)
      modifies this
      ensures out == Emitted(old(Pending()))
      ensures Pending() == NoLists && argTypeMap == old(argTypeMap) && env == old(env)
    {
      out := EmitLists(Pending());
      intList, doubleList, strList := [], [], [];
      intArrayList, doubleArrayList, strArrayList := [], [], [];
    }
  }

  /** The integer unit test's declared types and tuples. */
  const TestArgTypes: map<string, ArgType> := map["num1" := RexpInt, "num2" := RexpInt]
  const TestFirst: map<string, Value> := map["num1" := IntValue(5), "num2" := IntValue(12)]
  const TestSecond: map<string, Value> := map["num1" := IntValue(102), "num2" := IntValue(12)]

  /** Both test tuples bind. */
  lemma TestTuplesBind()
    ensures AllAccepted(TestFirst, TestArgTypes) && AllAccepted(TestSecond, TestArgTypes)
  {
    assert TestFirst.Keys == {"num1", "num2"} && TestSecond.Keys == {"num1", "num2"};
    assert Accepted(TestFirst, TestArgTypes, "num1") && Accepted(TestFirst, TestArgTypes, "num2");
    assert Accepted(TestSecond, TestArgTypes, "num1") && Accepted(TestSecond, TestArgTypes, "num2");
  }

  /** Two buffered ints are emitted in order, on the int port. */
  lemma TwoIntsEmitted(x: int, y: int)
    ensures Emitted(NoLists.(ints := [x, y])) == [IntItem(x), IntItem(y)]
  {
    EachAt([x, y], WrapInt);
  }

  /** The integer unit test's window: argTypeMap declares num1 and num2 as
      ints, two tuples bind them, and the R function returns a one-element
      integer vector each time (its values are the inputs sum1 and sum2).
      Exactly two emissions follow, both on the int port. */
  method IntTestWindow(sum1: int, sum2: int) returns (out: seq<Item>)
    ensures out == [IntItem(sum1), IntItem(sum2)]
  {
    var oper := new RScriptOperator(TestArgTypes);
    TestTuplesBind();
    var err1 := oper.ProcessTuple(TestFirst, IntSxp([sum1]));
    assert oper.Pending() == NoLists.(ints := [sum1]);
    var err2 := oper.ProcessTuple(TestSecond, IntSxp([sum2]));
    assert oper.Pending() == NoLists.(ints := [sum1, sum2]);
    out := oper.EndWindow();
    TwoIntsEmitted(sum1, sum2);
  }
}
