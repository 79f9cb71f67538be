/** CompareExceptStringMap: a pass-through operator on string-valued maps. A
    tuple whose value under the configured key, read as a number, passes the
    configured comparison is "matched" and goes out on `compare`; every other
    tuple goes out on `except`. Each emit happens only when its port is
    connected, and what is emitted is a copy of the input map. */
module CompareExceptStringMap {
  import opened Wrappers
  import Decimal

  /** The supported comparison functions. */
  datatype Cmp = Lte | Lt | Eq | Neq | Gt | Gte

  /** The comparison in force when none is configured. */
  const DefaultCmp: Cmp := Eq

  /** The property spelling of each comparison. */
  function CmpName(c: Cmp): string
  {
    match c
    case Lte => "lte"
    case Lt => "lt"
    case Eq => "eq"
    case Neq => "neq"
    case Gt => "gt"
    case Gte => "gte"
  }

  /** Reading the `cmp` property: only the six supported names are accepted. */
  function ParseCmp(s: string): (r: Option<Cmp>)
    ensures r.Some? ==> CmpName(r.value) == s
  {
    if s == "lte" then Some(Lte)
    else if s == "lt" then Some(Lt)
    else if s == "eq" then Some(Eq)
    else if s == "neq" then Some(Neq)
    else if s == "gt" then Some(Gt)
    else if s == "gte" then Some(Gte)
    else None
  }

  /** Every supported comparison is accepted under its own name. */
  lemma ParseCmpName(c: Cmp)
    ensures ParseCmp(CmpName(c)) == Some(c)
  {
  }

  /** Does the tuple's value pass the comparison against the configured value? */
  predicate Compares(c: Cmp, tupleValue: real, value: real)
  {
    match c
    case Lte => tupleValue <= value
    case Lt => tupleValue < value
    case Eq => tupleValue == value
    case Neq => tupleValue != value
    case Gt => tupleValue > value
    case Gte => tupleValue >= value
  }

  /** The operator's properties `key`, `value` (already read as a number) and `cmp`. */
  datatype Config<K> = Config(key: K, value: real, cmp: Cmp)

  datatype ConfigError = EmptyKey | ValueNotANumber | UnsupportedCmp

  /** The configuration checks, for string keys: the key must be non-empty,
      the value must read as a number, a `cmp` given must be a supported
      name, and a `cmp` not given means `eq`. */
  function Configure(key: string, value: string, cmp: Option<string>): (r: Result<Config<string>, ConfigError>)
    ensures r.Success? <==>
      key != "" && Decimal.ParseDecimal(value).Some? && (cmp.Some? ==> ParseCmp(cmp.value).Some?)
    ensures r.Success? ==> r.value.key == key && Decimal.ParseDecimal(value) == Some(r.value.value)
    ensures r.Success? && cmp.None? ==> r.value.cmp == DefaultCmp
    ensures r.Success? && cmp.Some? ==> CmpName(r.value.cmp) == cmp.value
    ensures key == "" ==> r == Failure(EmptyKey)
  {
    if key == "" then Failure(EmptyKey)
    else match Decimal.ParseDecimal(value)
      case None => Failure(ValueNotANumber)
      case Some(v) =>
        if cmp.None? then Success(Config(key, v, DefaultCmp))
        else match ParseCmp(cmp.value)
          case None => Failure(UnsupportedCmp)
          case Some(c) => Success(Config(key, v, c))
  }

  /** The match decision: the tuple has the key, its value there reads as a
      number, and that number passes the comparison. A tuple without the key,
      or with a value that is not a number, is not matched. */
  predicate Matched<K>(tuple: map<K, string>, config: Config<K>)
  {
    && config.key in tuple
    && Decimal.ParseDecimal(tuple[config.key]).Some?
    && Compares(config.cmp, Decimal.ParseDecimal(tuple[config.key]).value, config.value)
  }

  datatype Port = Compare | Except

  /** One `emit` call: the port and the map handed to it. */
  datatype Emission<K> = Emission(port: Port, tuple: map<K, string>)

  /** `cloneTuple`: a fresh map with exactly the input's entries. */
  function CloneTuple<K>(tuple: map<K, string>): (r: map<K, string>)
    ensures r.Keys == tuple.Keys
    ensures forall k :: k in r ==> r[k] == tuple[k]
  {
    map k | k in tuple :: tuple[k]
  }

  /** `tupleMatched`: emit a copy on `compare` if it is connected. */
  function TupleMatched<K>(tuple: map<K, string>, compareConnected: bool): seq<Emission<K>>
  {
    if compareConnected then [Emission(Compare, CloneTuple(tuple))] else []
  }

  /** `tupleNotMatched`: emit a copy on `except` if it is connected. */
  function TupleNotMatched<K>(tuple: map<K, string>, exceptConnected: bool): seq<Emission<K>>
  {
    if exceptConnected then [Emission(Except, CloneTuple(tuple))] else []
  }

  /** The ports an output sequence uses. */
  function Ports<K>(out: seq<Emission<K>>): set<Port>
  {
    set i | 0 <= i < |out| :: out[i].port
  }

  /** One input tuple: decide the match, then emit accordingly. At most one
      emission; on `compare` exactly when matched and `compare` is connected,
      on `except` exactly when unmatched and `except` is connected; what goes
      out is equal to the input map. */
  function Process<K>(tuple: map<K, string>, config: Config<K>, compareConnected: bool, exceptConnected: bool)
    : (out: seq<Emission<K>>)
    ensures |out| <= 1
    ensures Compare in Ports(out) <==> Matched(tuple, config) && compareConnected
    ensures Except in Ports(out) <==> !Matched(tuple, config) && exceptConnected
    ensures forall i :: 0 <= i < |out| ==> out[i].tuple == tuple
  {
    var out :=
      if Matched(tuple, config) then TupleMatched(tuple, compareConnected)
      else TupleNotMatched(tuple, exceptConnected);
    assert out != [] ==> out[0].port in Ports(out);
    out
  }

  /** No tuple is emitted on both ports. */
  lemma NeverBothPorts<K>(tuple: map<K, string>, config: Config<K>, compareConnected: bool, exceptConnected: bool)
    ensures !(Compare in Ports(Process(tuple, config, compareConnected, exceptConnected))
              && Except in Ports(Process(tuple, config, compareConnected, exceptConnected)))
  {
  }

  /** A tuple lacking the configured key always goes to `except` (when connected). */
  lemma MissingKeyGoesToExcept<K>(tuple: map<K, string>, config: Config<K>, compareConnected: bool)
    requires config.key !in tuple
    ensures Process(tuple, config, compareConnected, true) == [Emission(Except, tuple)]
  {
  }

  /** The configuration of the class documentation's function table:
      key=a, value="3.0", cmp=eq; leaving cmp out configures the same. */
  lemma FunctionTableConfig()
    ensures Configure("a", "3.0", Some("eq")) == Success(Config("a", 3.0, Eq))
    ensures Configure("a", "3.0", None) == Success(Config("a", 3.0, Eq))
  {
    assert Decimal.ParseDecimal("3.0") == Some(3.0);
  }

  /** The rows of the function table, with both ports connected: the tuples
      whose `a` reads as 3 go to `compare`, the others to `except`. */
  lemma FunctionTableRow1()
    ensures Process(map["a" := "2", "b" := "20", "c" := "1000"], Config("a", 3.0, Eq), true, true)
         == [Emission(Except, map["a" := "2", "b" := "20", "c" := "1000"])]
  {
    assert Decimal.ParseDecimal("2") == Some(2.0);
  }

  lemma FunctionTableRow2()
    ensures Process(map["a" := "3", "b" := "40", "c" := "2"], Config("a", 3.0, Eq), true, true)
         == [Emission(Compare, map["a" := "3", "b" := "40", "c" := "2"])]
  {
    assert Decimal.ParseDecimal("3") == Some(3.0);
  }

  lemma FunctionTableRow3()
    ensures Process(map["a" := "10", "b" := "5"], Config("a", 3.0, Eq), true, true)
         == [Emission(Except, map["a" := "10", "b" := "5"])]
  {
    assert Decimal.ParseDecimal("10") == Some(10.0);
  }

  lemma FunctionTableRow4()
    ensures Process(map["d" := "55", "b" := "12"], Config("a", 3.0, Eq), true, true)
         == [Emission(Except, map["d" := "55", "b" := "12"])]
  {
  }

  lemma FunctionTableRow5()
    ensures Process(map["d" := "22", "a" := "4"], Config("a", 3.0, Eq), true, true)
         == [Emission(Except, map["d" := "22", "a" := "4"])]
  {
    assert Decimal.ParseDecimal("4") == Some(4.0);
  }

  lemma FunctionTableRow6()
    ensures Process(map["d" := "4", "a" := "3", "g" := "5", "h" := "44"], Config("a", 3.0, Eq), true, true)
         == [Emission(Compare, map["d" := "4", "a" := "3", "g" := "5", "h" := "44"])]
  {
    assert Decimal.ParseDecimal("3") == Some(3.0);
  }
}
