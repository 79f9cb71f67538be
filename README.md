# Malhar operators: a verified model

This project models, in Dafny, the decision and buffering logic of six
operators of the Malhar streaming library:

- **LogicalCompare** receives a pair and emits it unchanged on three of its
  six output ports. The three are chosen by the sign of `first.compareTo(second)`.
- **CompareExceptStringMap** reads a string-valued map tuple. It takes the
  value under the configured key as a number and compares it with the
  configured value. A matched tuple goes out on `compare`; with `emitError`
  set, as in the class's function table, every other tuple goes out on
  `except`. Each emit happens only when its port is connected,
  and what goes out is a copy of the input map.
- **MachineInfoAveragingPrerequisitesOperator** keeps two maps per machine
  key: the sums of the cpu, ram and hdd readings, and the number of readings.
  At the end of a window it emits one (key, field → (sum, count)) record per
  key, then clears both maps.
- **RScript** binds the entries of each tuple as variables of an embedded R
  engine, each under its declared type from `argTypeMap`. It then takes the
  value the R function returns and buffers it on one of six lists, chosen by
  its type (int, real or string) and its length (one element, or more). At
  the end of the window every list is emitted on its own port, in a fixed
  order, and cleared. `getFileName` builds the name of the script's temporary
  copy.
- **RMax** and **RMin** buffer a window's numbers. At the end of a non-empty
  window they copy the numbers into an array, hand it to R and emit R's
  `max` or `min` of it. The buffer is then cleared.

The model follows the source's own form:

- The two comparison routers are pure functions over an abstract `compareTo`
  or the match decision.
- The stateful operators are classes whose fields are the source's fields,
  with methods that update them in place.
- Java's `HashMap` iteration order is unspecified. It is modelled by the
  method `HashIteration.IterationOrder`, which returns some order visiting
  every key exactly once.
- The R engine is kept out of the model:
  - the variables it holds are a map that `assign` updates;
  - the value an `eval` returns is an input;
  - `max` and `min` are the mathematical maximum and minimum of the vector.

Modules:

- `Wrappers`: `Option` and `Result`.
- `Decimal`: Java's `Long.toString`, and the plain-decimal part of
  `Double.parseDouble`.
- `LogicalCompare`, `CompareExceptStringMap` and `MachineInfoAveraging`.
- `HashIteration`.
- `RVectors`: the array copy, and R's `max` and `min`.
- `RMax`, `RMin` and `RScript`.

## Model

Source paths are relative to the repository root.

| member | source | states |
|---|---|---|
| LogicalCompare.Process | library/src/main/java/com/datatorrent/lib/math/LogicalCompare.java:63-76 | exactly three emissions, on three different ports, each carrying the input pair unchanged; a port is used exactly when its relation admits the sign of `compareTo` |
| LogicalCompare.RoutingBySign | library/src/main/java/com/datatorrent/lib/math/LogicalCompare.java:64-75 | positive sign: exactly greaterThan, greaterThanOrEqualTo, notEqualTo; negative: exactly lessThan, lessThanOrEqualTo, notEqualTo; zero: exactly equalTo, lessThanOrEqualTo, greaterThanOrEqualTo |
| LogicalCompare.ComplementaryPorts | library/src/main/java/com/datatorrent/lib/math/LogicalCompare.java:63-76 | exactly one of equalTo and notEqualTo receives the pair, and lessThan and greaterThan never both do |
| LogicalCompare.IntCompareTo | library/src/main/java/com/datatorrent/lib/math/LogicalCompare.java:63 | `Integer.compareTo` yields -1, 0 or 1, negative exactly when a < b, zero exactly when a == b, positive exactly when a > b |
| LogicalCompare.IntegerRouting | library/src/main/java/com/datatorrent/lib/math/LogicalCompare.java:24-33 | for integer pairs, the pair reaches a port if and only if that port's relation holds between first and second |
| LogicalCompare.Mirror | library/src/main/java/com/datatorrent/lib/math/LogicalCompare.java:24-33 | the mirrored port admits a sign exactly when the original admits its negation |
| LogicalCompare.SwappedPairMirrored | library/src/main/java/com/datatorrent/lib/math/LogicalCompare.java:63-76 | with an antisymmetric `compareTo`, the swapped pair reaches exactly the mirrored ports |
| LogicalCompare.ProcessAll | library/src/main/java/com/datatorrent/lib/math/LogicalCompare.java:51-77 | a stream of n pairs yields 3n emissions |
| LogicalCompare.Stateless | library/src/main/java/com/datatorrent/lib/math/LogicalCompare.java:51 | no state carries between tuples: the emissions of xs followed by ys are those of xs followed by those of ys |
| LogicalCompare.ProcessAllAt | library/src/main/java/com/datatorrent/lib/math/LogicalCompare.java:51-77 | the k-th pair of a stream is emitted as emissions 3k to 3k+2, exactly as if it had arrived alone |
| CompareExceptStringMap.ParseCmp | library/src/main/java/com/malhartech/lib/math/CompareExceptStringMap.java:29 | an accepted `cmp` string is the name of the comparison it yields |
| CompareExceptStringMap.ParseCmpName | library/src/main/java/com/malhartech/lib/math/CompareExceptStringMap.java:29 | each of lte, lt, eq, neq, gt, gte is accepted as its own comparison |
| CompareExceptStringMap.Compares | library/src/main/java/com/malhartech/lib/math/CompareExceptStringMap.java:29 | definition of the six comparisons, no promise of its own; used by CompareExceptStringMap.Process |
| CompareExceptStringMap.Matched | library/src/main/java/com/malhartech/lib/math/CompareExceptStringMap.java:27-37 | definition of the match rule, no promise of its own; how it routes a tuple is stated by CompareExceptStringMap.Process and MissingKeyGoesToExcept |
| CompareExceptStringMap.Configure | library/src/main/java/com/malhartech/lib/math/CompareExceptStringMap.java:26-34 | configuration succeeds exactly when the key is non-empty, the value reads as a number and a given `cmp` is supported; an empty key fails as such; the key and the number are kept; no `cmp` means eq |
| CompareExceptStringMap.CloneTuple | library/src/main/java/com/malhartech/lib/math/CompareExceptStringMap.java:86 | definition of `cloneTuple`, no promise of its own; that the emitted map has exactly the input's entries is stated by CompareExceptStringMap.Process |
| CompareExceptStringMap.TupleMatched | library/src/main/java/com/malhartech/lib/math/CompareExceptStringMap.java:83-88 | definition of `tupleMatched`, no promise of its own; stated by CompareExceptStringMap.Process |
| CompareExceptStringMap.TupleNotMatched | library/src/main/java/com/malhartech/lib/math/CompareExceptStringMap.java:95-100 | definition of `tupleNotMatched`, no promise of its own; stated by CompareExceptStringMap.Process |
| CompareExceptStringMap.Process | library/src/main/java/com/malhartech/lib/math/CompareExceptStringMap.java:83-100 | at most one emission; on `compare` if and only if matched and `compare` is connected; on `except` if and only if unmatched and `except` is connected; the emitted map equals the input |
| CompareExceptStringMap.NeverBothPorts | library/src/main/java/com/malhartech/lib/math/CompareExceptStringMap.java:83-100 | no tuple is emitted on both ports |
| CompareExceptStringMap.MissingKeyGoesToExcept | library/src/main/java/com/malhartech/lib/math/CompareExceptStringMap.java:36 | a tuple lacking the key goes to `except` as a copy when `except` is connected |
| CompareExceptStringMap.FunctionTableConfig | library/src/main/java/com/malhartech/lib/math/CompareExceptStringMap.java:46 | key=a, value="3.0" and cmp=eq configure a comparison for equality with 3; leaving cmp out configures the same |
| CompareExceptStringMap.FunctionTableRow1 | library/src/main/java/com/malhartech/lib/math/CompareExceptStringMap.java:51 | {a=2,b=20,c=1000} goes to `except` |
| CompareExceptStringMap.FunctionTableRow2 | library/src/main/java/com/malhartech/lib/math/CompareExceptStringMap.java:52 | {a=3,b=40,c=2} goes to `compare` |
| CompareExceptStringMap.FunctionTableRow3 | library/src/main/java/com/malhartech/lib/math/CompareExceptStringMap.java:53 | {a=10,b=5} goes to `except` |
| CompareExceptStringMap.FunctionTableRow4 | library/src/main/java/com/malhartech/lib/math/CompareExceptStringMap.java:54 | {d=55,b=12}, which lacks the key, goes to `except` |
| CompareExceptStringMap.FunctionTableRow5 | library/src/main/java/com/malhartech/lib/math/CompareExceptStringMap.java:55 | {d=22,a=4} goes to `except` |
| CompareExceptStringMap.FunctionTableRow6 | library/src/main/java/com/malhartech/lib/math/CompareExceptStringMap.java:56 | {d=4,a=3,g=5,h=44} goes to `compare` |
| MachineInfoAveraging.KeysOf | contrib/src/main/java/com/datatorrent/contrib/machinedata/operator/MachineInfoAveragingPrerequisitesOperator.java:60 | definition (the readings' keys), no promise of its own; used by MachineInfoAveraging.CountIsMultiplicity |
| MachineInfoAveraging.CountAppend | contrib/src/main/java/com/datatorrent/contrib/machinedata/operator/MachineInfoAveragingPrerequisitesOperator.java:75-81 | one more reading raises its own key's count by one and no other |
| MachineInfoAveraging.FieldSumAppend | contrib/src/main/java/com/datatorrent/contrib/machinedata/operator/MachineInfoAveragingPrerequisitesOperator.java:62-73 | one more reading adds its field value to its own key's sum and to no other |
| MachineInfoAveraging.CountPositive | contrib/src/main/java/com/datatorrent/contrib/machinedata/operator/MachineInfoAveragingPrerequisitesOperator.java:75-81 | a key's count is positive if and only if some reading carries the key |
| MachineInfoAveraging.CountIsMultiplicity | contrib/src/main/java/com/datatorrent/contrib/machinedata/operator/MachineInfoAveragingPrerequisitesOperator.java:75-81 | a key's count is the number of readings with that key |
| MachineInfoAveraging.Averages | contrib/src/main/java/com/datatorrent/contrib/machinedata/operator/MachineInfoAveragingPrerequisitesOperator.java:94-97 | definition of the emitted (sum, count) map, no promise of its own; that each record pairs the window's sums with the key's count is stated by MachineInfoAveraging.WindowRecords and AveragingPrerequisites.EndWindow |
| MachineInfoAveraging.WindowSums | contrib/src/main/java/com/datatorrent/contrib/machinedata/operator/MachineInfoAveragingPrerequisitesOperator.java:62-73 | definition (the three FieldSums of a key), no promise of its own; that the sums map holds exactly these is stated by MachineInfoAveraging.WindowMaps |
| MachineInfoAveraging.Initial | contrib/src/main/java/com/datatorrent/contrib/machinedata/operator/MachineInfoAveragingPrerequisitesOperator.java:63-68 | definition of a new key's sums map, no promise of its own; its relation to the window sums is stated by MachineInfoAveraging.WindowSumsAppend |
| MachineInfoAveraging.Added | contrib/src/main/java/com/datatorrent/contrib/machinedata/operator/MachineInfoAveragingPrerequisitesOperator.java:69-73 | definition of the in-place additions, no promise of its own; its relation to the window sums is stated by MachineInfoAveraging.WindowSumsAppend |
| MachineInfoAveraging.SumsOf | contrib/src/main/java/com/datatorrent/contrib/machinedata/operator/MachineInfoAveragingPrerequisitesOperator.java:62-73 | after any window, every inner sums map holds the three fields |
| MachineInfoAveraging.CountsOf | contrib/src/main/java/com/datatorrent/contrib/machinedata/operator/MachineInfoAveragingPrerequisitesOperator.java:75-81 | definition of the count updates over a window, no promise of its own; stated by MachineInfoAveraging.WindowMaps and CountsPositive |
| MachineInfoAveraging.EmptyWindow | contrib/src/main/java/com/datatorrent/contrib/machinedata/operator/MachineInfoAveragingPrerequisitesOperator.java:103-104 | helper: the maps of an empty window are empty, which AveragingPrerequisites.EndWindow uses to restore its invariant after clearing |
| MachineInfoAveraging.Unseen | contrib/src/main/java/com/datatorrent/contrib/machinedata/operator/MachineInfoAveragingPrerequisitesOperator.java:62-81 | a key no reading carries has count zero and all three sums zero |
| MachineInfoAveraging.KeySetAppend | contrib/src/main/java/com/datatorrent/contrib/machinedata/operator/MachineInfoAveragingPrerequisitesOperator.java:60-68 | one more reading adds exactly its key to the window's keys |
| MachineInfoAveraging.WindowSumsAppend | contrib/src/main/java/com/datatorrent/contrib/machinedata/operator/MachineInfoAveragingPrerequisitesOperator.java:62-73 | one more reading leaves other keys' sums alone, starts a new key's sums at its values, and adds into an existing key's sums |
| MachineInfoAveraging.WindowMaps | contrib/src/main/java/com/datatorrent/contrib/machinedata/operator/MachineInfoAveragingPrerequisitesOperator.java:58-82 | after any readings, both maps hold exactly the readings' keys; counts[k] is k's number of readings and sums[k][f] the sum of f over them |
| MachineInfoAveraging.CountsPositive | contrib/src/main/java/com/datatorrent/contrib/machinedata/operator/MachineInfoAveragingPrerequisitesOperator.java:75-81 | every count present is at least one |
| MachineInfoAveraging.InnerFields | contrib/src/main/java/com/datatorrent/contrib/machinedata/operator/MachineInfoAveragingPrerequisitesOperator.java:64-68 | every inner sums map has exactly the keys cpu, ram and hdd |
| MachineInfoAveraging.Record | contrib/src/main/java/com/datatorrent/contrib/machinedata/operator/MachineInfoAveragingPrerequisitesOperator.java:91-100 | definition of one emitted record, no promise of its own; its contents are stated by MachineInfoAveraging.WindowRecords |
| MachineInfoAveraging.RecordsOf | contrib/src/main/java/com/datatorrent/contrib/machinedata/operator/MachineInfoAveragingPrerequisitesOperator.java:89-102 | one record for each of the first n keys, the j-th being the record of the j-th key |
| MachineInfoAveraging.Flush | contrib/src/main/java/com/datatorrent/contrib/machinedata/operator/MachineInfoAveragingPrerequisitesOperator.java:89-102 | not connected: nothing; connected: exactly one record per key, in some order, each built from its key's sums and count |
| MachineInfoAveraging.RecordsFlushed | contrib/src/main/java/com/datatorrent/contrib/machinedata/operator/MachineInfoAveragingPrerequisitesOperator.java:89-102 | records built along any iteration order of the keys are one per key, with no key repeated |
| MachineInfoAveraging.WindowRecords | contrib/src/main/java/com/datatorrent/contrib/machinedata/operator/MachineInfoAveragingPrerequisitesOperator.java:91-97 | each record from the window's maps pairs every field's window sum with the key's number of readings |
| MachineInfoAveraging.AveragingPrerequisites.constructor | contrib/src/main/java/com/datatorrent/contrib/machinedata/operator/MachineInfoAveragingPrerequisitesOperator.java:43-46 | both maps start empty |
| MachineInfoAveraging.AveragingPrerequisites.Process | contrib/src/main/java/com/datatorrent/contrib/machinedata/operator/MachineInfoAveragingPrerequisitesOperator.java:58-82 | the key's sums start at the reading or grow by it; its count starts at one or grows by one; no other key changes; the maps stay those of the readings seen |
| MachineInfoAveraging.AveragingPrerequisites.EndWindow | contrib/src/main/java/com/datatorrent/contrib/machinedata/operator/MachineInfoAveragingPrerequisitesOperator.java:86-105 | emits what Flush emits from the maps, each record pairing the window's sums with the key's count; both maps are empty afterwards, whether or not the port is connected |
| HashIteration.IterationOrder | contrib/src/main/java/com/datatorrent/contrib/machinedata/operator/MachineInfoAveragingPrerequisitesOperator.java:89 | an entry-set iteration visits every key exactly once |
| RVectors.CopyToArray | library/src/main/java/com/datatorrent/lib/r/RMax.java:113-116 | the array has the list's length and its values in order |
| RVectors.Max | library/src/main/java/com/datatorrent/lib/r/RMax.java:35-37 | the maximum is one of the values and no value exceeds it |
| RVectors.Min | library/src/main/java/com/datatorrent/lib/r/RMin.java:32-34 | the minimum is one of the values and no value is below it |
| RVectors.MaxUnique | library/src/main/java/com/datatorrent/lib/r/RMax.java:121 | any value of the vector that bounds all of them is its maximum |
| RVectors.MinUnique | library/src/main/java/com/datatorrent/lib/r/RMin.java:119 | any value of the vector that is below all of them is its minimum |
| RMax.RMax.constructor | library/src/main/java/com/datatorrent/lib/r/RMax.java:50 | the buffer starts empty |
| RMax.RMax.Process | library/src/main/java/com/datatorrent/lib/r/RMax.java:71-75 | appends the tuple at the end of `vector` and changes nothing else |
| RMax.RMax.EndWindow | library/src/main/java/com/datatorrent/lib/r/RMax.java:108-128 | empty buffer: emits nothing and nothing changes; otherwise assigns the buffer as `vector`, emits exactly one value, which is in the buffer and at least every buffered value, and empties the buffer |
| RMax.UnitTestMaximum | library/src/test/java/com/datatorrent/lib/r/RMaxOperatorTest.java:54 | the maximum of the test's values is 1000 |
| RMax.UnitTestWindow | library/src/test/java/com/datatorrent/lib/r/RMaxOperatorTest.java:53-54 | the test's window emits exactly one value, 1000 |
| RMin.RMin.constructor | library/src/main/java/com/datatorrent/lib/r/RMin.java:48 | the buffer starts empty |
| RMin.RMin.Process | library/src/main/java/com/datatorrent/lib/r/RMin.java:71-75 | appends the tuple at the end of `numList` and changes nothing else |
| RMin.RMin.EndWindow | library/src/main/java/com/datatorrent/lib/r/RMin.java:107-126 | empty buffer: emits nothing and nothing changes; otherwise assigns the buffer as `numList`, emits exactly one value, which is in the buffer and at most every buffered value, and empties the buffer |
| RScript.Bind | library/src/main/java/com/datatorrent/lib/r/RScript.java:431-460 | a value binds under a type exactly when the type's cast accepts it, and is then tagged with that type and carries that value |
| RScript.Accepts | library/src/main/java/com/datatorrent/lib/r/RScript.java:431-460 | definition of which values each declared type's cast accepts, no promise of its own; stated by RScript.Bind and BindArguments |
| RScript.Bound | library/src/main/java/com/datatorrent/lib/r/RScript.java:427-465 | when every entry binds, the variables bound are exactly the tuple's keys |
| RScript.BoundPrefixContents | library/src/main/java/com/datatorrent/lib/r/RScript.java:427-465 | the variables bound after the first n keys of the iteration are exactly those keys, each tagged with its declared type |
| RScript.PrefixWithin | library/src/main/java/com/datatorrent/lib/r/RScript.java:427-465 | binding part of the tuple only assigns tuple keys, each to its bound value, and leaves every other variable alone |
| RScript.PrefixComplete | library/src/main/java/com/datatorrent/lib/r/RScript.java:427-465 | after every key of the iteration, the bindings are those of the whole tuple |
| RScript.PrefixStep | library/src/main/java/com/datatorrent/lib/r/RScript.java:428-460 | binding one more key adds exactly that key's variable |
| RScript.Refusal | library/src/main/java/com/datatorrent/lib/r/RScript.java:431-450 | definition of a refused entry's error, no promise of its own; that BindArguments reports it for a missing or miscast tuple key is stated by RScript.BindArguments |
| RScript.BindStopped | library/src/main/java/com/datatorrent/lib/r/RScript.java:427-465 | a binding stopped at the first refused key reports that key's error, with the keys before it assigned |
| RScript.BindCompleted | library/src/main/java/com/datatorrent/lib/r/RScript.java:427-465 | a binding that visited every key succeeds and has assigned the whole tuple |
| RScript.BindArguments | library/src/main/java/com/datatorrent/lib/r/RScript.java:427-465 | succeeds exactly when every key has a declared type whose cast accepts its value, and then assigns exactly the tuple; otherwise fails on a tuple key that is missing or miscast, having assigned only tuple keys |
| RScript.Classify | library/src/main/java/com/datatorrent/lib/r/RScript.java:472-530 | int, real and string results are classified and any other type is unsupported; the item keeps the result's type, is an array exactly when the length exceeds one, and holds the result's values |
| RScript.Each | library/src/main/java/com/datatorrent/lib/r/RScript.java:278-307 | one emission per buffered element |
| RScript.EachAt | library/src/main/java/com/datatorrent/lib/r/RScript.java:278-307 | definition unfolded (the i-th emission is the i-th element, wrapped); what the window emits per port is stated by RScript.EmittedOnPort |
| RScript.PushGrowsOneList | library/src/main/java/com/datatorrent/lib/r/RScript.java:472-530 | buffering an item grows exactly its own port's list, by that item at the end, and leaves the other five unchanged |
| RScript.Push | library/src/main/java/com/datatorrent/lib/r/RScript.java:484-523 | definition of the list adds, no promise of its own; stated by RScript.PushGrowsOneList |
| RScript.EachAppend | library/src/main/java/com/datatorrent/lib/r/RScript.java:484-523 | appending to a list appends its emission |
| RScript.Emitted | library/src/main/java/com/datatorrent/lib/r/RScript.java:275-310 | as many emissions as buffered items |
| RScript.OnPortAppend | library/src/main/java/com/datatorrent/lib/r/RScript.java:275-310 | the emissions on a port of two runs in a row are those of each run in turn |
| RScript.SectionOnPort | library/src/main/java/com/datatorrent/lib/r/RScript.java:278-307 | each list's emissions are all on its own port |
| RScript.EmittedOnPort | library/src/main/java/com/datatorrent/lib/r/RScript.java:275-310 | in a window's emissions every port receives exactly its own list, in insertion order, and nothing else |
| RScript.EmitAll | library/src/main/java/com/datatorrent/lib/r/RScript.java:278-280 | a list's loop emits each element in order |
| RScript.EmitLists | library/src/main/java/com/datatorrent/lib/r/RScript.java:275-310 | the six loops emit the int, double, int array, double array, string array and string lists in that order |
| RScript.RScriptOperator.constructor | library/src/main/java/com/datatorrent/lib/r/RScript.java:111-136 | all six lists start empty |
| RScript.RScriptOperator.ProcessTuple | library/src/main/java/com/datatorrent/lib/r/RScript.java:425-531 | succeeds exactly when the tuple binds and the result type is supported; a binding failure names a missing or miscast key; an unsupported type is reported with its code; only tuple keys are assigned; on success exactly the result's list grows by its item, and on failure no list changes |
| RScript.RScriptOperator.EndWindow | library/src/main/java/com/datatorrent/lib/r/RScript.java:275-310 | emits the lists as they stood, in the six loops' order, and leaves all six empty |
| RScript.JoinPieces | library/src/main/java/com/datatorrent/lib/r/RScript.java:343 | the pieces of a path, joined with the separator, give the path back |
| RScript.PiecesAround | library/src/main/java/com/datatorrent/lib/r/RScript.java:343 | a path cut at a separator splits into the pieces of each side |
| RScript.PiecesWithoutSeparator | library/src/main/java/com/datatorrent/lib/r/RScript.java:343 | a string without the separator is a single piece |
| RScript.DropTrailingEmpty | library/src/main/java/com/datatorrent/lib/r/RScript.java:343 | `split` keeps a prefix of the pieces, drops only empty ones, and never ends on an empty piece |
| RScript.Split | library/src/main/java/com/datatorrent/lib/r/RScript.java:343 | definition of `split` on the separator, no promise of its own; stated by RScript.FileNameLastPiece, FileNameOfPath and FileNameFailure |
| RScript.FileNameOf | library/src/main/java/com/datatorrent/lib/r/RScript.java:343-344 | definition of `data[data.length - 1]`, no promise of its own; stated by the FileName lemmas below |
| RScript.PiecesHaveNoSeparator | library/src/main/java/com/datatorrent/lib/r/RScript.java:343 | no piece of a split contains the separator |
| RScript.FileNameHasNoSeparator | library/src/main/java/com/datatorrent/lib/r/RScript.java:343-344 | the file name taken from the path contains no separator |
| RScript.FileNameOfPath | library/src/main/java/com/datatorrent/lib/r/RScript.java:343-344 | for a path dir/name, the file name taken is name |
| RScript.FileNameLastPiece | library/src/main/java/com/datatorrent/lib/r/RScript.java:343-344 | a file name found is the last non-empty piece of the path (all later pieces are empty), and is empty only for the empty path |
| RScript.FileNameOfBareName | library/src/main/java/com/datatorrent/lib/r/RScript.java:343-344 | a path without a separator is its own file name |
| RScript.FileNameOfTrailingSeparator | library/src/main/java/com/datatorrent/lib/r/RScript.java:343-344 | for a path dir/name/ the file name is name |
| RScript.FileNameFailure | library/src/main/java/com/datatorrent/lib/r/RScript.java:343-344 | taking the last piece fails exactly for a non-empty path made of separators only |
| RScript.TempFileName | library/src/main/java/com/datatorrent/lib/r/RScript.java:342-346 | the temporary name exists exactly when the script path has a file name |
| RScript.TempFileNameOfPath | library/src/main/java/com/datatorrent/lib/r/RScript.java:342-346 | for a script at dir/name: the temporary directory, the separator, name, the time, "_" and the thread id |
| RScript.NoUnderscore | library/src/main/java/com/datatorrent/lib/r/RScript.java:345 | a decimal number never contains the underscore that separates the time from the thread id |
| RScript.SplitAtMark | library/src/main/java/com/datatorrent/lib/r/RScript.java:345 | a string cut at a mark its first part lacks splits in only one way |
| RScript.TempFileNamesDistinct | library/src/main/java/com/datatorrent/lib/r/RScript.java:336-345 | equal temporary names for one script mean equal times and equal thread ids, so a different time or thread gives a different name; the uniqueness is per script only |
| RScript.TempFileNameShift | library/src/main/java/com/datatorrent/lib/r/RScript.java:343-345 | the time follows the file name with no separator, so moving the name's last character to the front of the time's text leaves the temporary name unchanged |
| RScript.TempFileNamesCollideAcrossScripts | library/src/main/java/com/datatorrent/lib/r/RScript.java:336-345 | across scripts the name is not unique: script x1 at time 23 and script x at time 123 get the same name on the same thread |
| RScript.TestTuplesBind | library/src/test/java/com/datatorrent/lib/r/RScriptOperatorIntTest.java:48-62 | both tuples of the integer test bind against its declared types |
| RScript.TwoIntsEmitted | library/src/test/java/com/datatorrent/lib/r/RScriptOperatorIntTest.java:64-67 | two buffered ints are emitted in order on the int port |
| RScript.IntTestWindow | library/src/test/java/com/datatorrent/lib/r/RScriptOperatorIntTest.java:48-67 | the integer test's window yields exactly two int emissions, the two results in order |
| Decimal.DigitChar | library/src/main/java/com/datatorrent/lib/r/RScript.java:345 | the digit character of d is a digit worth d |
| Decimal.NatToString | library/src/main/java/com/datatorrent/lib/r/RScript.java:345 | the decimal text of a natural number is non-empty, made of digits, and has no leading zero |
| Decimal.NatToStringValue | library/src/main/java/com/datatorrent/lib/r/RScript.java:345 | the digits of a natural number's text are worth that number |
| Decimal.IntToString | library/src/main/java/com/datatorrent/lib/r/RScript.java:345 | definition of `Long.toString`, no promise of its own; stated by Decimal.ParseIntToString and IntToStringInjective |
| Decimal.ParseDecimal | library/src/main/java/com/malhartech/lib/math/CompareExceptStringMap.java:33-37 | definition of the plain-decimal reading of `Double.parseDouble`, no promise of its own; stated by Decimal.ParseUnsignedDigits and ParseIntToString |
| Decimal.ParseUnsignedDigits | library/src/main/java/com/malhartech/lib/math/CompareExceptStringMap.java:33-37 | a string of digits reads as the number its digits are worth |
| Decimal.ParseIntToString | library/src/main/java/com/datatorrent/lib/r/RScript.java:345 | reading back the decimal text of any integer as a number gives that integer |
| Decimal.IntToStringInjective | library/src/main/java/com/datatorrent/lib/r/RScript.java:345 | different integers have different decimal texts |

## Left out

- The R engine (`Rengine`): `setup`, `source`, `eval`, `assign` and `end`
  are foreign code. The value the R function returns is an input of
  `ProcessTuple`. `assign` is an update of the variables map. The
  assignment made by `eval("retVal<-…")` is not modelled.
- Reading the script, writing its temporary copy and deleting it in
  `teardown` are file-system I/O and are not modelled. The temporary
  directory, the current time and the thread id are parameters of
  `TempFileName`.
- `File.separator` is taken as one character and `split` as literal
  splitting on it. On Windows the separator `\` would be read as a regular
  expression, which is not modelled.
- JRI's `asInt`, `asDouble` and `asString` on an empty vector are taken as
  0, 0.0 and null (`None`).
- `null` tuple values are not modelled. In the source a `null` under
  REXP_INT, REXP_DOUBLE or REXP_BOOL fails when it is unboxed. Under
  REXP_STR the cast `(String) null` succeeds. The array types pass the
  value on without a cast. An `eval` that returns `null` is not modelled
  either. A key missing from `argTypeMap` is modelled, as `MissingArgType`.
- Numbers: RScript's and RMax/RMin's doubles are unbounded mathematical
  values (`real`, and `int` for RMax/RMin). No rounding and no NaN are
  modelled, nor the `int` width of Java's `Integer` or the `long` of
  `MutableLong`.
- MachineInfoAveraging.WindowSums: the cpu, ram and hdd sums are exact
  integer sums. The source adds them with floating-point `MutableDouble`,
  so no rounding is modelled.
- MachineKey's own fields, and the `AverageData` division, are not modelled.
  The record carries the (sum, count) pair that `AverageData` is built from.
- MatchStringMap, the superclass that decides the match for
  CompareExceptStringMap, is not part of this model. The match rule is the
  one the class documentation states: a missing key, or a value that is not
  a number, is unmatched; otherwise the configured comparison decides.
  Decimal.ParseDecimal reads plain decimals only (an optional sign `+` or
  `-`, digits, an optional fraction), not exponents, surrounding blanks or
  the other forms of `Double.parseDouble`.
- CompareExceptStringMap.Matched: the tuple's value and the configured
  value are compared as exact decimals. The source compares the `double`
  values `Double.parseDouble` rounds them to, so two texts that round to the
  same double (such as "3.0000000000000001" and "3.0") are equal there but
  not here.
- CompareExceptStringMap.Matched: the model takes `emitError` to be true,
  the setting of the class's function table, so that every unmatched tuple
  (a missing key, a value that is not a number, or a failed comparison) is
  sent to `except`. What `emitError` = false changes is decided by
  MatchStringMap, which is not part of this model.
- CompareExceptStringMap.Configure: the configured value is kept as an exact
  decimal, without rounding to a `double`, for the same reason.
- CompareExceptStringMap.Configure takes string keys, for which "Key must be
  non empty" is the documented check. The operator's other key types are
  not configured by the model.
- The emitted map is a fresh copy in the source (`cloneTuple`). The model
  compares values, so it states only that the copy has the same entries.
- Port connection is a boolean input. Unifiers, partitioning and
  checkpointing are not modelled.
- RMax's `setup` continuing when R cannot be loaded, and RMin's throwing
  in that case, belong to the R engine and are not modelled.
- RScript.TempFileName: its own contract states only when a name exists.
  The full name is stated by RScript.TempFileNameOfPath for every path of
  the form dir/name. For any other path, FileNameLastPiece states that the
  name is the path's last non-empty piece. FileNameOfBareName and
  FileNameOfTrailingSeparator give the name for bare names and for a
  trailing separator. FileNameFailure covers the paths with no name.
- RScript.Each: its own contract states only the length. Its contents are
  stated by RScript.EachAt.
- RStandardDeviation, the JDBC output operator, the demo input generator,
  the application wiring and the JavaScript views are outside this model.
