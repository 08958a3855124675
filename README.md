# HTTP benchmark tool: the measurement pipeline in Dafny

The benchmark tool's `measure` command reads a CSV file of test cases. Each
row holds a query fragment and a concurrency. The command then attacks every
pair of `--api` address and test case, with the api in the outer loop. For each
pair it labels the results, and it writes two CSV files into the output
folder: `<query>.response.csv` with the compacted bodies and
`<query>.latency.csv` with the latencies. The first error stops everything.
The command's guards come before all of this: at most two apis, an input path
that exists, and an input path that is not a folder.

The model has four files:

- `base.dfy` (module `Base`): `Option`, `Result`, and the int64 and uint64 bounds.
- `strconv.dfy` (module `Strconv`): Go's `strconv.ParseInt(s, 10, 64)` with
  its syntax and range errors, and `fmt`'s `%d` on a non-negative int. The
  loader depends on the first and the result labels on the second.
- `measure.dfy` (module `Measure`):
  - the `Measurement` class with its `testCases` field, and its methods
    `ReadInputFile`, `WriteResultFile`, `MeasureAnApi`, `Measure` and `Run`;
  - the `OutputDir` class: the files in the output folder, and whether
    `os.Create` succeeds on a path;
  - the specification functions that define each method;
  - lemmas about those functions.
- `cmd.dfy` (module `Cmd`): the `Run` closure of the cobra command. There is a
  pure `Gate` function for the three guards, and an `Execute` method that
  builds a `Measurement` and runs it.

The environment is passed in as values:

- `Env.readCsv` is what opening the input and decoding it with `encoding/csv` gives.
- `Env.attack(k, plan)` is the list of results that the k-th attack of the
  run delivers. Each result is a body and an already formatted latency.
- `Env.compact` is `json.Compact`, as a partial function.
- the `stat` parameter of `Cmd.Execute` is `os.Stat`.
- `OutputDir.writable` is whether `os.Create` succeeds on a path.

To number the attacks, the `Measurement` also records every `measureAnApi`
call in a `calls` field.

Method contracts are stated against functions on values:

- `Load` gives the test cases that loading appends and the error it returns.
- `PairOutcome` gives the error of one pair, the paths it tries to create and
  the files it writes.
- `Sweep` is the traversal of a list of pairs that stops at the first error.
  `AllPairs` is the list in api-outer order.
- `Walk` follows the shape of `measure`'s two loops. Lemma `WalkAllPairs`
  proves that `Walk` equals `Sweep` over `AllPairs`.

Differences from the tool's intended behaviour, where the model follows the code:

- Loading is not all-or-nothing. The test cases of the rows before the first
  bad concurrency field stay in `testCases` when the error is returned. `Run`
  then returns that error without measuring.
- A concurrency of zero or a negative one is accepted: ParseInt takes any int64.
- An empty input file or an empty list of apis is not an error. `Run` then
  makes no attack and returns no error.
- The two result files are not written atomically. The response file is
  created and written before the latency file is tried. If the latency file
  cannot be created, the response file stays behind.
- Only the number of apis is limited. No guard checks that the list is non-empty.
- A request that fails in transport is not recorded and passed over. Its
  result reaches the body loop like any other. If its body does not compact
  (an empty body, for instance), the whole run stops with a compaction error.
  `Env.compact` is an arbitrary partial function, so the model covers this
  case without fixing which bodies fail.

## Model

| member | source | states |
|---|---|---|
| Strconv.ParseIntAccepts | measure/measure.go:65 | ParseInt base 10, 64 bits, succeeds exactly on an optional sign followed by one or more decimal digits whose value lies in int64, and then returns that value |
| Strconv.ParseIntRejects | measure/measure.go:65-68 | every ParseInt error names the whole input; a well-formed number outside int64 is a range error; a malformed string is a syntax error unless its leading digits already overflow uint64, which is reported as a range error first |
| Strconv.ParseUintMeaning | measure/measure.go:65 | the unsigned scan behind ParseInt is decided by the leading run of digits: an overflow of that run is a range error, anything after it is a syntax error, and otherwise its value is returned |
| Strconv.FormatNat | measure/measure.go:122 | `%d` of a non-negative int is a non-empty string of decimal digits that denotes the number, with no leading zero unless the number is 0 |
| Strconv.FormatNatInjective | measure/measure.go:122 | two numbers print the same exactly when they are equal |
| Strconv.FormatParseRoundTrip | measure/measure.go:65 | ParseInt reads back every number in int64 that `%d` prints |
| Measure.FirstBadRow | measure/measure.go:64-68 | the index at which the loader stops: every earlier row's second field parses, and the row at that index, if any, does not |
| Measure.CasesAt | measure/measure.go:64-74 | the first n test cases built are n in number, and case i has id i, query record[i][0] and the parsed value of record[i][1] |
| Measure.LoadSucceeds | measure/measure.go:51-76 | a decoded file loads without error exactly when every second field is a decimal int64; then there is one test case per row, in row order, with the row index as id, the first field as query and the second field's value as concurrency |
| Measure.LoadStopsAtFirstBadRow | measure/measure.go:64-68 | a failed load returns the ParseInt error of the first bad row, whose field is not a decimal int64; the cases of the rows before it are kept, and rows after it make no difference |
| Measure.LoadEmpty | measure/measure.go:64-75 | a file with no rows gives no test cases and no error |
| Measure.Measurement.ReadInputFile | measure/measure.go:51-76 | an open failure and a CSV failure return their errors with nothing appended; otherwise test cases are appended row by row until the first bad field, whose error is returned |
| Measure.Measurement.constructor | measure/measure.go:30-36 | NewMeasurement keeps the api addresses, the input path and the output path, and starts with no test cases |
| Measure.RequestUrlParts | measure/measure.go:112 | the target URL is the api, a question mark and the query, and both can be read back from it |
| Measure.Uint64 | measure/measure.go:116 | the worker count `uint64(concurrent)` is a uint64 congruent to the int64 modulo 2^64, that is, the int64 truncated to 64 bits |
| Measure.Uint64Unique | measure/measure.go:116 | no other uint64 value is congruent to the int64 modulo 2^64, so the two clauses above determine the conversion |
| Measure.FirstUncompactable | measure/measure.go:121-129 | the position of the result at which compaction first fails: every earlier body compacts and that one, if any, does not |
| Measure.Measurement.CollectResults | measure/measure.go:120-135 | the first body that does not compact ends the result loop with a compaction error; otherwise every body compacted and the two lists are the response rows and the latency rows of all results |
| Measure.RowsShape | measure/measure.go:120-134 | both lists have one row per result; row k of each carries the label query_(k+1), the response row holds result k's compacted body and the latency row its latency |
| Measure.LabelsDistinct | measure/measure.go:122 | no two results of one pair get the same label |
| Measure.ResultFilesDistinct | measure/measure.go:147-155 | the response file and the latency file of a query are different paths |
| Measure.PairOutcomeOrder | measure/measure.go:105-158 | a pair succeeds exactly when every body compacts and both files can be created; no file is tried before all bodies compacted; the response file is tried first and written before the latency file is tried; every file written is a path that was tried, was writable, and holds one row per result; a compaction failure returns the error of the first bad body |
| Measure.OutputDir.Create | measure/measure.go:79-88 | os.Create is logged as tried, succeeds exactly on writable paths, and on success replaces the file's contents with the rows |
| Measure.Measurement.WriteResultFile | measure/measure.go:78-91 | the file `OutputPath/name.csv` is tried; the call fails with a create error exactly when that path is not writable, and otherwise the file holds the data |
| Measure.Measurement.MeasureAnApi | measure/measure.go:105-158 | one call is logged, and its error and its effect on the output directory are those of PairOutcome on the results of this attack of the pair's plan |
| Measure.ApiRowIndex | measure/measure.go:95-100 | the inner loop visits every test case once, in order, with the same api |
| Measure.AllPairsLength | measure/measure.go:94-101 | the two loops visit as many pairs as the number of apis times the number of test cases |
| Measure.AllPairsIndex | measure/measure.go:94-101 | with n test cases, visit number i * n + j is api i with test case j, so the api loop is the outer one |
| Measure.AllPairsNoCases | measure/measure.go:94-102 | with no test cases there is nothing to visit, however many apis there are |
| Measure.SweepMeaning | measure/measure.go:94-102 | the calls made are the first pairs, in order; every call but the last succeeded; no error is returned exactly when every pair was measured and all succeeded, and otherwise the error of the last call is returned |
| Measure.SweepDirectory | measure/measure.go:94-102 | the directory left behind is the starting one with the effects of exactly the calls made applied in order |
| Measure.WalkSweep | measure/measure.go:94-102 | from any point of the two loops, what is left is the traversal of the pairs still pending |
| Measure.WalkAllPairs | measure/measure.go:93-103 | the two nested loops with early return are the traversal of all pairs in api-outer order |
| Measure.Measurement.MeasureTestCases | measure/measure.go:95-100 | the inner loop for one api measures its test cases in order and stops at the first error; it ends where the loops would go on with the next api |
| Measure.Measurement.Measure | measure/measure.go:93-103 | the calls, the error and the output directory are those of the two loops over apis and test cases |
| Measure.Measurement.Run | measure/measure.go:38-49 | the test cases are appended; a load error is returned with no attack made and the directory untouched; otherwise the calls, the error and the directory are those of the traversal of all pairs |
| Cmd.Gate | cmd/measure.go:33-46 | more than two apis fail before the file system is looked at, and two or fewer always pass that guard; then a missing input path fails, then a directory; the guards pass exactly when there are at most two apis and the input path exists and is not a directory |
| Cmd.Execute | cmd/measure.go:31-54 | a failed guard exits with status 1, with no measurement made and the directory untouched; otherwise a new measurement gets the three flag values unchanged, runs as Run's contract says, and the command exits with status 1 exactly when Run returned an error |

## Left out

- The vegeta attacker, its rate, workers and metrics. The attack runs
  concurrently, in a library that is not part of this model, and the
  statistics are floating point. `Env.attack` gives an arbitrary finite list
  of results for each attack. The model keeps the plan handed to the attacker
  (GET, the URL, the rate, 100ms, the worker count, no keep-alive).
- `strconv.FormatFloat` of the latency: this is float formatting. A result
  carries its latency as an already formatted string.
- The console output, `chalk` and the metrics printout: these are output only.
- Cobra's flag registration and its required-flag checks: this is CLI plumbing.
  `Cmd.Flags` holds the values bound to the flags.
- `os.Exit`: it becomes the `Exit1` outcome of `Cmd.Execute`.
- `encoding/csv` quoting and decoding, and the internals of `json.Compact`:
  this is library code. Records are lists of strings, and `json.Compact` is a
  partial function on bodies.
- `os.Open` and CSV decoding become their outcomes in `Env.readCsv`.
  `os.Create` becomes `OutputDir.writable`. `os.Stat` becomes the `stat`
  parameter.
- `Cmd.Execute`: it does not tell a regular file from a named pipe, a device or a socket. The code only tests `IsDir()`, so `PathStatus.NotDirectory` stands for every existing path that is not a directory.
- `Cmd.Execute`: it assumes an `os.Stat` error other than "does not exist"
  does not happen. In Go, such an error leaves the file info nil and the
  directory check would panic.
- `Measure.Measurement.ReadInputFile`: it requires every record to have at
  least two fields, because `record[1]` panics on a shorter record.
  `encoding/csv` gives every record the field count of the first one.
- `Measure.OutputDir.Create`: the error of the CSV writer's `WriteAll` is
  ignored by the code (the file could be left short). The model writes the
  rows in full.
- The `defer`-ed `Close` and `Flush` calls are not modelled separately.
  Create and write form one step.
- `Measure.Plan` has no row of its own. It gives the attacker the method GET, the URL of `RequestUrl`, the rate `int(concurrent)` per 100ms, an attack of 100ms, `Uint64(concurrent)` workers and no keep-alive. `int(concurrent)` is taken as the identity, because Go's `int` is 64 bits wide on the 64-bit platforms the tool targets.
- `Measure.Error`: `CsvError` carries the input path and `CompactError` the failing body. Go's errors carry a line and a column (`encoding/csv`) or an offset (`json.Compact`) instead. Go only prints them.
- The test case id is an `int64(index)` in Go. It is an unbounded `nat` in the
  model, since a file cannot reach 2^63 rows.
