/** MachineInfoAveragingPrerequisitesOperator: per machine key, accumulates
    within a window the sums of the cpu, ram and hdd readings and the number
    of readings; at the window's end emits, per key, each field's (sum, count)
    pair, the prerequisites of an average, and then clears both maps. */
module MachineInfoAveraging {
  import HashIteration

  /** One reading: the machine's key and its three utilisation figures.
      MachineKey's own fields are not needed, so the key is a type parameter. */
  datatype MachineInfo<K> = MachineInfo(key: K, cpu: int, ram: int, hdd: int)

  /** The three fields, which key the inner maps. */
  datatype Field = Cpu | Ram | Hdd

  const AllFields: set<Field> := {Cpu, Ram, Hdd}

  /** An inner map holding (at least) the three fields. */
  predicate HasFields<V>(m: map<Field, V>)
  {
    Cpu in m && Ram in m && Hdd in m
  }

  /** A reading's value for one field. */
  function FieldValue<K>(t: MachineInfo<K>, f: Field): int
  {
    match f
    case Cpu => t.cpu
    case Ram => t.ram
    case Hdd => t.hdd
  }

  /** The number of readings in s with key k. */
  function Count<K(==)>(s: seq<MachineInfo<K>>, k: K): nat
  {
    if s == [] then 0 else (if s[0].key == k then 1 else 0) + Count(s[1..], k)
  }

  /** The sum of field f over the readings in s with key k. */
  function FieldSum<K(==)>(s: seq<MachineInfo<K>>, k: K, f: Field): int
  {
    if s == [] then 0 else (if s[0].key == k then FieldValue(s[0], f) else 0) + FieldSum(s[1..], k, f)
  }

  /** The keys of the readings, in order. */
  function KeysOf<K(==)>(s: seq<MachineInfo<K>>): (keys: seq<K>)
    ensures |keys| == |s| && forall i :: 0 <= i < |s| ==> keys[i] == s[i].key
  {
    seq(|s|, i requires 0 <= i < |s| => s[i].key)
  }

  /** One more reading adds one to its key's count and leaves other counts alone. */
  lemma {:induction false} CountAppend<K>(s: seq<MachineInfo<K>>, t: MachineInfo<K>, k: K)
    ensures Count(s + [t], k) == Count(s, k) + (if t.key == k then 1 else 0)
  {
    if s == [] {
      assert s + [t] == [t];
    } else {
      assert (s + [t])[1..] == s[1..] + [t];
      CountAppend(s[1..], t, k);
    }
  }

  /** One more reading adds its value to its key's sums and leaves other sums alone. */
  lemma {:induction false} FieldSumAppend<K>(s: seq<MachineInfo<K>>, t: MachineInfo<K>, k: K, f: Field)
    ensures FieldSum(s + [t], k, f) == FieldSum(s, k, f) + (if t.key == k then FieldValue(t, f) else 0)
  {
    if s == [] {
      assert s + [t] == [t];
    } else {
      assert (s + [t])[1..] == s[1..] + [t];
      FieldSumAppend(s[1..], t, k, f);
    }
  }

  /** A key has a positive count exactly when some reading carries it. */
  lemma {:induction false} CountPositive<K>(s: seq<MachineInfo<K>>, k: K)
    ensures Count(s, k) > 0 <==> exists i :: 0 <= i < |s| && s[i].key == k
  {
    if s != [] {
      CountPositive(s[1..], k);
      if Count(s[1..], k) > 0 {
        var i :| 0 <= i < |s[1..]| && s[1..][i].key == k;
        assert s[i + 1].key == k;
      }
      if s[0].key != k && (exists i :: 0 <= i < |s| && s[i].key == k) {
        var i :| 0 <= i < |s| && s[i].key == k;
        assert s[1..][i - 1].key == k;
      }
    }
  }

  /** The count is the multiplicity of the key among the readings' keys. */
  lemma {:induction false} CountIsMultiplicity<K>(s: seq<MachineInfo<K>>, k: K)
    ensures Count(s, k) == multiset(KeysOf(s))[k]
  {
    if s != [] {
      CountIsMultiplicity(s[1..], k);
      assert KeysOf(s) == [s[0].key] + KeysOf(s[1..]);
    }
  }

  /** What AverageData is built from: a field's sum and the key's count. */
  datatype AverageData = AverageData(sum: int, count: nat)

  /** The emitted KeyHashValPair: a key and its per-field (sum, count) map. */
  datatype KeyedAverages<K> = KeyedAverages(key: K, averages: map<Field, AverageData>)

  /** The record endWindow builds from one key's sums map and its count. */
  function Averages(sumMap: map<Field, int>, count: nat): (avg: map<Field, AverageData>)
    requires HasFields(sumMap)
    ensures avg.Keys == AllFields && HasFields(avg)
    ensures forall f :: f in AllFields ==> avg[f] == AverageData(sumMap[f], count)
  {
    map[Cpu := AverageData(sumMap[Cpu], count), Ram := AverageData(sumMap[Ram], count),
        Hdd := AverageData(sumMap[Hdd], count)]
  }

  /** The per-field sums of key k over the window's readings s. */
  function WindowSums<K(==)>(s: seq<MachineInfo<K>>, k: K): (sums: map<Field, int>)
    ensures sums.Keys == AllFields && HasFields(sums)
    ensures forall f :: f in AllFields ==> sums[f] == FieldSum(s, k, f)
  {
    map[Cpu := FieldSum(s, k, Cpu), Ram := FieldSum(s, k, Ram), Hdd := FieldSum(s, k, Hdd)]
  }

  /** The keys of the window's readings. */
  function KeySet<K(==)>(s: seq<MachineInfo<K>>): set<K>
  {
    set i | 0 <= i < |s| :: s[i].key
  }

  /** The inner map `process` starts for a key seen for the first time. */
  function Initial<K>(t: MachineInfo<K>): (m: map<Field, int>)
    ensures m.Keys == AllFields && HasFields(m) && forall f :: f in AllFields ==> m[f] == FieldValue(t, f)
  {
    map[Cpu := t.cpu, Ram := t.ram, Hdd := t.hdd]
  }

  /** The inner map after `process` adds a reading to a key's sums. */
  function Added<K>(sumsMap: map<Field, int>, t: MachineInfo<K>): (m: map<Field, int>)
    requires HasFields(sumsMap)
    ensures m.Keys == sumsMap.Keys && HasFields(m) && forall f :: f in AllFields ==> m[f] == sumsMap[f] + FieldValue(t, f)
  {
    sumsMap[Cpu := sumsMap[Cpu] + t.cpu][Ram := sumsMap[Ram] + t.ram][Hdd := sumsMap[Hdd] + t.hdd]
  }

  /** What `counts` holds after `process` has seen the readings s in turn:
      each reading starts its key's count at one or increments it. */
  function CountsOf<K(==)>(s: seq<MachineInfo<K>>): (counts: map<K, nat>)
  {
    if s == [] then map[]
    else
      var before, t := CountsOf(s[..|s| - 1]), s[|s| - 1];
      before[t.key := if t.key in before then before[t.key] + 1 else 1]
  }

  /** What `sums` holds after `process` has seen the readings s in turn:
      each reading starts its key's sums at its values or adds them in. Every
      inner map holds the three fields. */
  function SumsOf<K(==)>(s: seq<MachineInfo<K>>): (sums: map<K, map<Field, int>>)
    ensures forall k :: k in sums ==> HasFields(sums[k])
  {
    if s == [] then map[]
    else
      var before, t := SumsOf(s[..|s| - 1]), s[|s| - 1];
      before[t.key := if t.key in before then Added(before[t.key], t) else Initial(t)]
  }

  /** An empty window leaves both maps empty. */
  lemma EmptyWindow<K>()
    ensures SumsOf<K>([]) == map[] && CountsOf<K>([]) == map[]
  {
  }

  /** A key that no reading carries has count zero and all sums zero. */
  lemma {:induction false} Unseen<K>(s: seq<MachineInfo<K>>, k: K)
    requires k !in KeySet(s)
    ensures Count(s, k) == 0
    ensures forall f :: f in AllFields ==> FieldSum(s, k, f) == 0
  {
    if s != [] {
      assert KeySet(s[1..]) <= KeySet(s) by {
        forall j | 0 <= j < |s[1..]| ensures s[1..][j].key in KeySet(s) {
          assert s[1..][j] == s[j + 1];
        }
      }
      assert s[0].key in KeySet(s);
      Unseen(s[1..], k);
    }
  }

  lemma KeySetAppend<K>(s: seq<MachineInfo<K>>, t: MachineInfo<K>)
    ensures KeySet(s + [t]) == KeySet(s) + {t.key}
  {
    var u := s + [t];
    assert forall i :: 0 <= i < |s| ==> u[i] == s[i];
    assert u[|s|] == t;
  }

  /** One key's sums after one more reading: unchanged for another key,
      started at the reading's values for a new key, added to otherwise. */
  lemma WindowSumsAppend<K>(s: seq<MachineInfo<K>>, t: MachineInfo<K>, k: K)
    ensures WindowSums(s + [t], k) ==
      if t.key != k then WindowSums(s, k)
      else if k in KeySet(s) then Added(WindowSums(s, k), t)
      else Initial(t)
  {
    FieldSumAppend(s, t, k, Cpu);
    FieldSumAppend(s, t, k, Ram);
    FieldSumAppend(s, t, k, Hdd);
    if k !in KeySet(s) {
      Unseen(s, k);
    }
  }

  /** What the two maps hold, stated independently of the order `process`
      builds them in: exactly the keys of the window's readings, each with its
      number of readings and its per-field sums over them. */
  lemma {:induction false} WindowMaps<K>(s: seq<MachineInfo<K>>)
    ensures CountsOf(s).Keys == KeySet(s) && SumsOf(s).Keys == KeySet(s)
    ensures forall k :: k in CountsOf(s) ==> CountsOf(s)[k] == Count(s, k)
    ensures forall k :: k in SumsOf(s) ==> SumsOf(s)[k] == WindowSums(s, k)
  {
    if s != [] {
      var before, t := s[..|s| - 1], s[|s| - 1];
      assert s == before + [t];
      WindowMaps(before);
      KeySetAppend(before, t);
      forall k | k in KeySet(s)
        ensures CountsOf(s)[k] == Count(s, k) && SumsOf(s)[k] == WindowSums(s, k)
      {
        CountAppend(before, t, k);
        WindowSumsAppend(before, t, k);
        if k !in KeySet(before) {
          Unseen(before, k);
        }
      }
    }
  }

  /** Every count is at least one: a key is present only once a reading
      carried it. */
  lemma CountsPositive<K>(s: seq<MachineInfo<K>>, k: K)
    requires k in CountsOf(s)
    ensures CountsOf(s)[k] >= 1
  {
    WindowMaps(s);
    var i :| 0 <= i < |s| && s[i].key == k;
    CountPositive(s, k);
  }

  /** Every inner sums map has exactly the three fields. */
  lemma InnerFields<K>(s: seq<MachineInfo<K>>, k: K)
    requires k in SumsOf(s)
    ensures SumsOf(s)[k].Keys == AllFields
  {
    WindowMaps(s);
  }

  /** The maps endWindow walks over: the same keys, and every inner map
      holding the three fields. */
  predicate WellShaped<K>(sums: map<K, map<Field, int>>, counts: map<K, nat>)
  {
    && sums.Keys == counts.Keys
    && forall k :: k in sums ==> HasFields(sums[k])
  }

  /** The record endWindow builds for key k from the two maps. */
  function Record<K>(sums: map<K, map<Field, int>>, counts: map<K, nat>, k: K): (r: KeyedAverages<K>)
    requires WellShaped(sums, counts) && k in sums
    ensures r.key == k && r.averages == Averages(sums[k], counts[k])
  {
    KeyedAverages(k, Averages(sums[k], counts[k]))
  }

  /** What endWindow emits from the two maps: nothing if the port is not
      connected; otherwise exactly one record per key, each built from its
      key's sums and count. */
  ghost predicate Flushed<K>(out: seq<KeyedAverages<K>>, sums: map<K, map<Field, int>>, counts: map<K, nat>,
                             connected: bool)
    requires WellShaped(sums, counts)
  {
    && (!connected ==> out == [])
    && (connected ==> |out| == |sums|)
    && (connected ==> forall k :: k in sums ==> exists i :: 0 <= i < |out| && out[i].key == k)
    && (forall i, j :: 0 <= i < j < |out| ==> out[i].key != out[j].key)
    && (forall i :: 0 <= i < |out| ==> out[i].key in sums && out[i] == Record(sums, counts, out[i].key))
  }

  /** The records of the first n keys of ks, in that order. */
  function RecordsOf<K>(sums: map<K, map<Field, int>>, counts: map<K, nat>, ks: seq<K>, n: nat)
    : (out: seq<KeyedAverages<K>>)
    requires WellShaped(sums, counts)
    requires forall i :: 0 <= i < |ks| ==> ks[i] in sums
    requires n <= |ks|
    ensures |out| == n
    ensures forall j :: 0 <= j < n ==> out[j] == Record(sums, counts, ks[j])
  {
    if n == 0 then [] else RecordsOf(sums, counts, ks, n - 1) + [Record(sums, counts, ks[n - 1])]
  }

  /** The loop of `endWindow` over the entries of the sums map, emitting each
      key's record when the port is connected. */
  method Flush<K>(sums: map<K, map<Field, int>>, counts: map<K, nat>, connected: bool)
    returns (out: seq<KeyedAverages<K>>)
    requires WellShaped(sums, counts)
    ensures Flushed(out, sums, counts, connected)
  {
    var order := HashIteration.IterationOrder(sums.Keys);
    out := [];
    var i := 0;
    while i < |order|
      invariant 0 <= i <= |order|
      invariant out == if connected then RecordsOf(sums, counts, order, i) else []
    {
      if connected {
        out := out + [Record(sums, counts, order[i])];
      }
      i := i + 1;
    }
    RecordsFlushed(sums, counts, connected, order, out);
  }

  /** Records built in an iteration order of the keys are what endWindow emits. */
  lemma RecordsFlushed<K>(sums: map<K, map<Field, int>>, counts: map<K, nat>, connected: bool,
                          order: seq<K>, out: seq<KeyedAverages<K>>)
    requires WellShaped(sums, counts)
    requires HashIteration.IsOrderOf(order, sums.Keys)
    requires out == if connected then RecordsOf(sums, counts, order, |order|) else []
    ensures Flushed(out, sums, counts, connected)
  {
    if connected {
      assert |sums.Keys| == |sums|;
      assert forall j :: 0 <= j < |out| ==> out[j] == Record(sums, counts, order[j]);
      assert forall j :: 0 <= j < |out| ==> out[j].key == order[j];
      forall k | k in sums ensures exists j :: 0 <= j < |out| && out[j].key == k {
        var j :| 0 <= j < |order| && order[j] == k;
        assert out[j].key == k;
      }
    }
  }

  /** Records flushed from the maps a window builds carry that window's
      per-key sums and counts. */
  lemma WindowRecords<K>(s: seq<MachineInfo<K>>, out: seq<KeyedAverages<K>>)
    requires WellShaped(SumsOf(s), CountsOf(s))
    requires forall i :: 0 <= i < |out| ==>
      out[i].key in SumsOf(s) && out[i] == Record(SumsOf(s), CountsOf(s), out[i].key)
    ensures forall i :: 0 <= i < |out| ==>
      out[i].averages == Averages(WindowSums(s, out[i].key), Count(s, out[i].key))
  {
    WindowMaps(s);
  }

  class AveragingPrerequisites<K(==)> {
    /** Aggregate sum of every field seen for a key. */
    var sums: map<K, map<Field, int>>
    /** Number of readings seen for a key. */
    var counts: map<K, nat>
    /** The readings of the current window, in arrival order. */
    ghost var seen: seq<MachineInfo<K>>

    /** Both maps are what `process` makes of the window's readings so far,
        and they hold the same keys. */
    ghost predicate Valid()
      reads this
    {
      sums == SumsOf(seen) && counts == CountsOf(seen) && WellShaped(sums, counts)
    }

    constructor ()
      ensures Valid() && seen == [] && sums == map[] && counts == map[]
    {
      sums := map[];
      counts := map[];
      seen := [];
    }

    /** `inputPort.process`: start the key's sums at the reading's values or
        add them in, and start its count at one or increment it. */
    method Process(tuple: MachineInfo<K>)
      requires Valid()
      modifies this
      ensures Valid()
      ensures seen == old(seen) + [tuple]
      ensures counts == old(counts)[tuple.key := if tuple.key in old(counts) then old(counts)[tuple.key] + 1 else 1]
      ensures sums == old(sums)[tuple.key := if tuple.key in old(sums) then Added(old(sums)[tuple.key], tuple) else Initial(tuple)]
    {
      ghost var before := seen;
      var key := tuple.key;
      if key !in sums {
        sums := sums[key := Initial(tuple)];
      } else {
        sums := sums[key := Added(sums[key], tuple)];
      }
      if key !in counts {
        counts := counts[key := 1];
      } else {
        counts := counts[key := counts[key] + 1];
      }
      seen := before + [tuple];
      assert seen[..|seen| - 1] == before;
    }

    /** `endWindow`: emit one record per key if the port is connected, then
        clear both maps. The records are those of Flush on the maps as they
        stood, so they pair the window's sums with each key's count. */
    method EndWindow(connected: bool) returns (out: seq<KeyedAverages<K>>)
      requires Valid()
      modifies this
      ensures Valid() && seen == [] && sums == map[] && counts == map[]
      ensures Flushed(out, old(sums), old(counts), connected)
      ensures forall i :: 0 <= i < |out| ==>
        out[i].averages == Averages(WindowSums(old(seen), out[i].key), Count(old(seen), out[i].key))
    {
      ghost var window := seen;
      out := Flush(sums, counts, connected);
      WindowRecords(window, out);
      sums := map[];
      counts := map[];
      seen := [];
      EmptyWindow<K>();
    }
  }
}
