/**
 * The measurement pipeline of the benchmark tool: it loads the test cases,
 * then attacks every (api, test case) pair with the api outermost, and for
 * each pair labels the results, builds the response and latency rows and
 * writes the two result files. The load generator, json.Compact, CSV decoding
 * and the output directory are the environment; they come in as an Env value
 * and an OutputDir object.
 */
module Measure {
  import opened Base
  import opened Strconv

  /** One benchmark case: its row number, its query fragment and its concurrency. */
  datatype TestCase = TestCase(id: nat, query: string, concurrent: Int64)

  /** A CSV record of the input file, and a row of a result file. */
  type Record = seq<string>
  type Row = seq<string>

  /** What opening the input file and decoding it with encoding/csv gives. */
  datatype CsvRead = OpenFailed | DecodeFailed | Decoded(records: seq<Record>)

  /**
   * The errors Run can return. CsvError carries the input path and
   * CompactError the body that failed: they stand for encoding/csv's
   * ParseError (a line and a column) and json.Compact's SyntaxError (an offset
   * into that body), which Go only prints.
   */
  datatype Error =
    | OpenError(path: string)
    | CsvError(path: string)
    | ParseError(cause: NumError)
    | CompactError(body: string)
    | CreateError(path: string)

  /** One result received from the attacker: the raw body and the latency in seconds, already formatted. */
  datatype Hit = Hit(body: string, latencySeconds: string)

  /** The target, rate and attacker options handed to the load generator for one pair. */
  datatype AttackPlan = AttackPlan(
    verb: string, url: string, freq: int, perMs: nat, durationMs: nat, workers: nat, keepAlive: bool)

  /**
   * The environment of a run: how the input path reads as CSV, what the n-th
   * attack of the run with a given plan delivers, and json.Compact as a
   * partial function on bodies.
   */
  datatype Env = Env(
    readCsv: string -> CsvRead,
    attack: (nat, AttackPlan) -> seq<Hit>,
    compact: string -> Option<string>)

  /** One measureAnApi call. */
  datatype Call = Call(api: string, testcase: TestCase)

  /** The part of the output directory the model observes: file contents and every path os.Create was tried on. */
  datatype DirState = DirState(files: map<string, seq<Row>>, attempts: seq<string>)

  /** Both the rate period and the attack duration are 100ms. */
  const AttackMs: nat := 100

  // ---------------------------------------------------------------------------
  // Loading the test cases

  /** The loader reads record[1] of every row; encoding/csv gives every record the first one's field count. */
  predicate HasTwoFields(records: seq<Record>) {
    forall i :: 0 <= i < |records| ==> |records[i]| >= 2
  }

  /** The index of the first record whose second field ParseInt rejects, or |records| when there is none. */
  function FirstBadRow(records: seq<Record>): (k: nat)
    requires HasTwoFields(records)
    ensures k <= |records|
    ensures forall i :: 0 <= i < k ==> ParseInt(records[i][1]).Ok?
    ensures k < |records| ==> ParseInt(records[k][1]).Err?
    decreases |records|
  {
    if records == [] || ParseInt(records[0][1]).Err? then 0
    else 1 + FirstBadRow(records[1..])
  }

  /** The test case built from record i. */
  function CaseAt(records: seq<Record>, i: nat): TestCase
    requires HasTwoFields(records) && i < FirstBadRow(records)
  {
    TestCase(i, records[i][0], ParseInt(records[i][1]).value)
  }

  /** The test cases built from the first n records. */
  function Cases(records: seq<Record>, n: nat): seq<TestCase>
    requires HasTwoFields(records) && n <= FirstBadRow(records)
  {
    if n == 0 then [] else Cases(records, n - 1) + [CaseAt(records, n - 1)]
  }

  /** The result of readInputFile: the cases it appends, and the error it returns. */
  datatype Loaded = Loaded(cases: seq<TestCase>, err: Option<Error>)

  function Load(src: CsvRead, path: string): Loaded
    requires src.Decoded? ==> HasTwoFields(src.records)
  {
    match src
    case OpenFailed => Loaded([], Some(OpenError(path)))
    case DecodeFailed => Loaded([], Some(CsvError(path)))
    case Decoded(records) =>
      var k := FirstBadRow(records);
      Loaded(Cases(records, k),
             if k < |records| then Some(ParseError(ParseInt(records[k][1]).error)) else None)
  }

  lemma {:induction false} CasesAt(records: seq<Record>, n: nat)
    requires HasTwoFields(records) && n <= FirstBadRow(records)
    ensures |Cases(records, n)| == n
    ensures forall i :: 0 <= i < n ==> Cases(records, n)[i] == TestCase(i, records[i][0], ParseInt(records[i][1]).value)
  {
    if n > 0 {
      CasesAt(records, n - 1);
    }
  }

  /**
   * A load without error yields one test case per record, in record order:
   * entry i has id i, the first field as query and the value of the second
   * field, and that happens exactly when every second field is an int64 in
   * decimal.
   */
  lemma LoadSucceeds(records: seq<Record>, path: string)
    requires HasTwoFields(records)
    ensures Load(Decoded(records), path).err.None? <==>
            forall i :: 0 <= i < |records| ==> IsDecimalInteger(records[i][1]) && InInt64(IntegerValue(records[i][1]))
    ensures Load(Decoded(records), path).err.None? ==>
            var cases := Load(Decoded(records), path).cases;
            |cases| == |records| &&
            forall i :: 0 <= i < |records| ==>
              IsDecimalInteger(records[i][1]) &&
              cases[i] == TestCase(i, records[i][0], IntegerValue(records[i][1]))
  {
    var k := FirstBadRow(records);
    CasesAt(records, k);
    forall i | 0 <= i < |records| {
      ParseIntAccepts(records[i][1]);
    }
  }

  /**
   * A load that fails returns the error of the first bad field; the cases of
   * the rows before it have been appended, and no row after it matters.
   */
  lemma {:induction false} LoadStopsAtFirstBadRow(records: seq<Record>, rest: seq<Record>, path: string)
    requires HasTwoFields(records) && HasTwoFields(rest)
    requires Load(Decoded(records), path).err.Some?
    ensures HasTwoFields(records + rest)
    ensures var k := FirstBadRow(records);
            k < |records| &&
            !(IsDecimalInteger(records[k][1]) && InInt64(IntegerValue(records[k][1]))) &&
            Load(Decoded(records), path).err == Some(ParseError(ParseInt(records[k][1]).error)) &&
            |Load(Decoded(records), path).cases| == k
    ensures Load(Decoded(records + rest), path) == Load(Decoded(records), path)
  {
    var k := FirstBadRow(records);
    var all := records + rest;
    assert HasTwoFields(all) by {
      forall i | 0 <= i < |all| ensures |all[i]| >= 2 {
        if i < |records| { assert all[i] == records[i]; } else { assert all[i] == rest[i - |records|]; }
      }
    }
    ParseIntAccepts(records[k][1]);
    CasesAt(records, k);
    FirstBadRowExtends(records, rest);
    forall i | 0 <= i < k ensures records[i] == all[i] { }
    CasesAgree(records, all, k);
  }

  /** FirstBadRow is the index of the first bad record. */
  lemma {:induction false} FirstBadRowIs(records: seq<Record>, k: nat)
    requires HasTwoFields(records) && k < |records|
    requires forall i :: 0 <= i < k ==> ParseInt(records[i][1]).Ok?
    requires ParseInt(records[k][1]).Err?
    ensures FirstBadRow(records) == k
  {
    if k > 0 {
      var tail := records[1..];
      forall i | 0 <= i < k - 1 ensures ParseInt(tail[i][1]).Ok? {
        assert tail[i] == records[i + 1];
      }
      FirstBadRowIs(tail, k - 1);
    }
  }

  lemma FirstBadRowExtends(records: seq<Record>, rest: seq<Record>)
    requires HasTwoFields(records) && HasTwoFields(records + rest)
    requires FirstBadRow(records) < |records|
    ensures FirstBadRow(records + rest) == FirstBadRow(records)
  {
    var all := records + rest;
    var k := FirstBadRow(records);
    assert all[k] == records[k];
    forall i | 0 <= i < k ensures ParseInt(all[i][1]).Ok? {
      assert all[i] == records[i];
    }
    FirstBadRowIs(all, k);
  }

  lemma {:induction false} CasesAgree(records: seq<Record>, all: seq<Record>, n: nat)
    requires HasTwoFields(records) && HasTwoFields(all)
    requires n <= FirstBadRow(records) && n <= FirstBadRow(all)
    requires forall i :: 0 <= i < n ==> records[i] == all[i]
    ensures Cases(records, n) == Cases(all, n)
  {
    if n > 0 {
      CasesAgree(records, all, n - 1);
      assert CaseAt(records, n - 1) == CaseAt(all, n - 1);
    }
  }

  lemma LoadEmpty(path: string)
    ensures Load(Decoded([]), path) == Loaded([], None)
  {
  }

  // ---------------------------------------------------------------------------
  // One (api, test case) pair

  /** The URL of the single GET target: the api, a question mark and the query. */
  function RequestUrl(api: string, query: string): string {
    api + "?" + query
  }

  /** The api and the query can be read back from the URL. */
  lemma RequestUrlParts(api: string, query: string)
    ensures var url := RequestUrl(api, query);
            |url| == |api| + 1 + |query| && url[..|api|] == api && url[|api|] == '?' && url[|api| + 1..] == query
  {
    var url := RequestUrl(api, query);
    assert url[..|api|] == api;
    assert url[|api| + 1..] == query;
  }

  /** Go's uint64(x) for an int64 x: x truncated to 64 bits, that is, reduced modulo 2^64. */
  function Uint64(x: Int64): (u: nat)
    ensures u <= MaxUint64
    ensures (u - x) % (MaxUint64 + 1) == 0
  {
    if x >= 0 then x else x + MaxUint64 + 1
  }

  /** The conversion is the only uint64 value congruent to x modulo 2^64. */
  lemma Uint64Unique(x: Int64, v: int)
    requires 0 <= v <= MaxUint64 && (v - x) % (MaxUint64 + 1) == 0
    ensures v == Uint64(x)
  {
    var u := Uint64(x);
    var m := MaxUint64 + 1;
    assert (v - u) % m == 0 by {
      assert v - u == (v - x) - (u - x);
    }
    assert -m < v - u < m;
  }

  /** The rate, target and options measureAnApi gives the load generator. */
  function Plan(api: string, tc: TestCase): AttackPlan {
    AttackPlan("GET", RequestUrl(api, tc.query), tc.concurrent, AttackMs, AttackMs, Uint64(tc.concurrent), false)
  }

  /** The label of the k-th result, counting from 1: query, underscore, k in decimal. */
  function Label(query: string, k: nat): string {
    query + "_" + FormatNat(k)
  }

  /** The path writeResultFile creates for a name. */
  function ResultFile(outputPath: string, name: string): string {
    outputPath + "/" + name + ".csv"
  }

  function ResponseFile(outputPath: string, query: string): string {
    ResultFile(outputPath, query + ".response")
  }

  function LatencyFile(outputPath: string, query: string): string {
    ResultFile(outputPath, query + ".latency")
  }

  predicate AllCompact(hits: seq<Hit>, compact: string -> Option<string>) {
    forall i :: 0 <= i < |hits| ==> compact(hits[i].body).Some?
  }

  /** The position of the first result whose body does not compact, or |hits|. */
  function FirstUncompactable(hits: seq<Hit>, compact: string -> Option<string>): (k: nat)
    ensures k <= |hits|
    ensures forall i :: 0 <= i < k ==> compact(hits[i].body).Some?
    ensures k < |hits| ==> compact(hits[k].body).None?
    decreases |hits|
  {
    if hits == [] || compact(hits[0].body).None? then 0
    else 1 + FirstUncompactable(hits[1..], compact)
  }

  lemma {:induction false} FirstUncompactableIs(hits: seq<Hit>, compact: string -> Option<string>, k: nat)
    requires k < |hits| && compact(hits[k].body).None?
    requires forall i :: 0 <= i < k ==> compact(hits[i].body).Some?
    ensures FirstUncompactable(hits, compact) == k
  {
    if k > 0 {
      var tail := hits[1..];
      forall i | 0 <= i < k - 1 ensures compact(tail[i].body).Some? {
        assert tail[i] == hits[i + 1];
      }
      FirstUncompactableIs(tail, compact, k - 1);
    }
  }

  lemma {:induction false} FirstUncompactableNone(hits: seq<Hit>, compact: string -> Option<string>)
    requires AllCompact(hits, compact)
    ensures FirstUncompactable(hits, compact) == |hits|
  {
    if hits != [] {
      assert AllCompact(hits[1..], compact) by {
        forall i | 0 <= i < |hits| - 1 ensures compact(hits[1..][i].body).Some? {
          assert hits[1..][i] == hits[i + 1];
        }
      }
      FirstUncompactableNone(hits[1..], compact);
    }
  }

  /** The rows of the response file: each label with the compacted body. */
  function ResponseRows(query: string, hits: seq<Hit>, compact: string -> Option<string>): seq<Row>
    requires AllCompact(hits, compact)
  {
    if hits == [] then []
    else
      assert AllCompact(hits[..|hits| - 1], compact);
      ResponseRows(query, hits[..|hits| - 1], compact) +
      [[Label(query, |hits|), compact(hits[|hits| - 1].body).value]]
  }

  /** The rows of the latency file: each label with the latency. */
  function LatencyRows(query: string, hits: seq<Hit>): seq<Row> {
    if hits == [] then []
    else LatencyRows(query, hits[..|hits| - 1]) + [[Label(query, |hits|), hits[|hits| - 1].latencySeconds]]
  }

  /** One file written: its path and its rows. */
  datatype Write = Write(path: string, rows: seq<Row>)

  /** Receiving result i adds one row to each list. */
  lemma RowsSnoc(query: string, hits: seq<Hit>, i: nat, compact: string -> Option<string>)
    requires i < |hits| && AllCompact(hits[..i], compact) && compact(hits[i].body).Some?
    ensures AllCompact(hits[..i + 1], compact)
    ensures ResponseRows(query, hits[..i + 1], compact) ==
            ResponseRows(query, hits[..i], compact) + [[Label(query, i + 1), compact(hits[i].body).value]]
    ensures LatencyRows(query, hits[..i + 1]) == LatencyRows(query, hits[..i]) + [[Label(query, i + 1), hits[i].latencySeconds]]
  {
    var pre := hits[..i + 1];
    assert pre[..i] == hits[..i];
    assert pre[i] == hits[i];
    assert AllCompact(pre, compact) by {
      forall j | 0 <= j < |pre| ensures compact(pre[j].body).Some? {
        if j < i { assert pre[j] == hits[..i][j]; }
      }
    }
  }

  /** What one measureAnApi call returns, the paths it tries to create, and the files it writes, in order. */
  datatype PairResult = PairResult(err: Option<Error>, attempted: seq<string>, writes: seq<Write>)

  lemma ApplyTwo(files: map<string, seq<Row>>, w1: Write, w2: Write)
    ensures Apply(files, [w1]) == files[w1.path := w1.rows]
    ensures Apply(files, [w1, w2]) == files[w1.path := w1.rows][w2.path := w2.rows]
  {
    var f1 := files[w1.path := w1.rows];
    assert [w1][1..] == [] && [w2][1..] == [] && [w1, w2][1..] == [w2];
    assert Apply(files, [w1]) == Apply(f1, []);
    assert Apply(f1, [w2]) == Apply(f1[w2.path := w2.rows], []);
    assert Apply(files, [w1, w2]) == Apply(f1, [w2]);
  }

  /** The directory's files after the given writes, in order; a write replaces the file's rows. */
  function Apply(files: map<string, seq<Row>>, writes: seq<Write>): map<string, seq<Row>>
    decreases |writes|
  {
    if writes == [] then files else Apply(files[writes[0].path := writes[0].rows], writes[1..])
  }

  function PairOutcome(outputPath: string, query: string, hits: seq<Hit>,
                       compact: string -> Option<string>, writable: string -> bool): PairResult
  {
    var k := FirstUncompactable(hits, compact);
    var rp := ResponseFile(outputPath, query);
    var lp := LatencyFile(outputPath, query);
    if k < |hits| then PairResult(Some(CompactError(hits[k].body)), [], [])
    else if !writable(rp) then PairResult(Some(CreateError(rp)), [rp], [])
    else if !writable(lp) then PairResult(Some(CreateError(lp)), [rp, lp], [Write(rp, ResponseRows(query, hits, compact))])
    else PairResult(None, [rp, lp], [Write(rp, ResponseRows(query, hits, compact)), Write(lp, LatencyRows(query, hits))])
  }

  /**
   * Result k, counting from 0, gives row k of both files; both rows carry the
   * label query_(k+1), so the two lists have one row per result, in arrival
   * order, with the same label at the same position.
   */
  lemma {:induction false} RowsShape(query: string, hits: seq<Hit>, compact: string -> Option<string>)
    requires AllCompact(hits, compact)
    ensures |ResponseRows(query, hits, compact)| == |hits| == |LatencyRows(query, hits)|
    ensures forall k :: 0 <= k < |hits| ==>
              ResponseRows(query, hits, compact)[k] == [Label(query, k + 1), compact(hits[k].body).value] &&
              LatencyRows(query, hits)[k] == [Label(query, k + 1), hits[k].latencySeconds]
  {
    if hits != [] {
      var n := |hits| - 1;
      var init := hits[..n];
      assert AllCompact(init, compact);
      RowsShape(query, init, compact);
      var rr := ResponseRows(query, init, compact);
      var lr := LatencyRows(query, init);
      assert ResponseRows(query, hits, compact) == rr + [[Label(query, n + 1), compact(hits[n].body).value]];
      assert LatencyRows(query, hits) == lr + [[Label(query, n + 1), hits[n].latencySeconds]];
      forall k | 0 <= k < n ensures init[k] == hits[k] { }
    }
  }

  /** No two results of one pair share a label. */
  lemma LabelsDistinct(query: string, j: nat, k: nat)
    requires j != k
    ensures Label(query, j) != Label(query, k)
  {
    var p := query + "_";
    assert Label(query, j)[|p|..] == FormatNat(j);
    assert Label(query, k)[|p|..] == FormatNat(k);
    FormatNatInjective(j, k);
  }

  /** The response and latency files of a query are two different files. */
  lemma ResultFilesDistinct(outputPath: string, query: string)
    ensures ResponseFile(outputPath, query) != LatencyFile(outputPath, query)
  {
    assert |ResponseFile(outputPath, query)| == |LatencyFile(outputPath, query)| + 1;
  }

  /**
   * The failure points of one pair come in a fixed order: no file is tried
   * before every body compacted, the response file is tried before the
   * latency file, and the latency file is tried only after the response file
   * was written. The pair succeeds exactly when all three steps do, and every
   * file written holds one row per result.
   */
  lemma PairOutcomeOrder(outputPath: string, query: string, hits: seq<Hit>,
                         compact: string -> Option<string>, writable: string -> bool)
    ensures var r := PairOutcome(outputPath, query, hits, compact, writable);
            var rp := ResponseFile(outputPath, query);
            var lp := LatencyFile(outputPath, query);
            && (r.err.None? <==> AllCompact(hits, compact) && writable(rp) && writable(lp))
            && r.attempted <= [rp, lp]
            && (r.attempted != [] ==> AllCompact(hits, compact))
            && (lp in r.attempted ==> r.writes != [] && r.writes[0].path == rp)
            && (forall w :: w in r.writes ==> w.path in r.attempted && writable(w.path) && |w.rows| == |hits|)
            && (!AllCompact(hits, compact) ==> r.err == Some(CompactError(hits[FirstUncompactable(hits, compact)].body)))
  {
    var r := PairOutcome(outputPath, query, hits, compact, writable);
    var rp := ResponseFile(outputPath, query);
    var lp := LatencyFile(outputPath, query);
    var k := FirstUncompactable(hits, compact);
    ResultFilesDistinct(outputPath, query);
    if k < |hits| {
      assert !AllCompact(hits, compact);
      assert r == PairResult(Some(CompactError(hits[k].body)), [], []);
    } else {
      assert AllCompact(hits, compact);
      RowsShape(query, hits, compact);
      var w1 := Write(rp, ResponseRows(query, hits, compact));
      var w2 := Write(lp, LatencyRows(query, hits));
      if !writable(rp) {
        assert r == PairResult(Some(CreateError(rp)), [rp], []);
      } else if !writable(lp) {
        assert r == PairResult(Some(CreateError(lp)), [rp, lp], [w1]);
      } else {
        assert r == PairResult(None, [rp, lp], [w1, w2]);
      }
    }
  }

  // ---------------------------------------------------------------------------
  // The traversal of all pairs

  /** The calls for one api, in test-case order. */
  function ApiRow(api: string, tcs: seq<TestCase>): seq<Call> {
    if tcs == [] then [] else [Call(api, tcs[0])] + ApiRow(api, tcs[1..])
  }

  /** The row of an api pairs it with every test case, in order. */
  lemma {:induction false} ApiRowIndex(api: string, tcs: seq<TestCase>)
    ensures |ApiRow(api, tcs)| == |tcs|
    ensures forall j :: 0 <= j < |tcs| ==> ApiRow(api, tcs)[j] == Call(api, tcs[j])
  {
    if tcs != [] {
      ApiRowIndex(api, tcs[1..]);
      assert forall j :: 0 < j < |tcs| ==> tcs[1..][j - 1] == tcs[j];
    }
  }

  /** Every (api, test case) pair, with the api in the outer loop. */
  function AllPairs(apis: seq<string>, tcs: seq<TestCase>): seq<Call> {
    if apis == [] then [] else ApiRow(apis[0], tcs) + AllPairs(apis[1..], tcs)
  }

  /**
   * What a call does when it is attack number k: measureAnApi's bookkeeping
   * on the results of that attack. The traversal below is stated for any
   * such step.
   */
  function Outcome(outputPath: string, env: Env, writable: string -> bool): (Call, nat) -> PairResult {
    (c: Call, k: nat) => PairOutcome(outputPath, c.testcase.query, env.attack(k, Plan(c.api, c.testcase)), env.compact, writable)
  }

  /** The outcome of each call of a run whose first call was attack number base. */
  function Outcomes(step: (Call, nat) -> PairResult, calls: seq<Call>, base: nat): seq<PairResult> {
    seq(|calls|, k requires 0 <= k < |calls| => step(calls[k], base + k))
  }

  /** The output directory after one pair: its writes applied, its attempts logged. */
  function Applied(d: DirState, r: PairResult): DirState {
    DirState(Apply(d.files, r.writes), d.attempts + r.attempted)
  }

  /** The output directory after the given pair results, in order. */
  function After(d: DirState, rs: seq<PairResult>): DirState
    decreases |rs|
  {
    if rs == [] then d else After(Applied(d, rs[0]), rs[1..])
  }

  /** The calls a traversal made, the error it returned and the directory it left. */
  datatype Trace = Trace(calls: seq<Call>, err: Option<Error>, dir: DirState)

  /**
   * A traversal of the given pairs, the first of them being attack number
   * base: each pair is measured in turn and the first error ends it.
   */
  function Sweep(step: (Call, nat) -> PairResult, pairs: seq<Call>, base: nat, d: DirState): Trace
    decreases |pairs|
  {
    if pairs == [] then Trace([], None, d)
    else
      var r := step(pairs[0], base);
      if r.err.Some? then Trace([pairs[0]], r.err, Applied(d, r))
      else
        var t := Sweep(step, pairs[1..], base + 1, Applied(d, r));
        Trace([pairs[0]] + t.calls, t.err, t.dir)
  }

  /** The calls a traversal makes are the first pairs, in order; it makes them all unless it stops with an error. */
  lemma {:induction false} SweepCalls(step: (Call, nat) -> PairResult, pairs: seq<Call>, base: nat, d: DirState)
    ensures var t := Sweep(step, pairs, base, d);
            && t.calls <= pairs
            && (t.err.None? ==> t.calls == pairs)
            && (t.err.Some? ==> t.calls != [])
    decreases |pairs|
  {
    if pairs != [] {
      var c := pairs[0];
      var r := step(c, base);
      if r.err.Some? {
        assert pairs[..1] == [c];
      } else {
        var t' := Sweep(step, pairs[1..], base + 1, Applied(d, r));
        SweepCalls(step, pairs[1..], base + 1, Applied(d, r));
        assert pairs == [c] + pairs[1..];
        assert pairs[..|t'.calls| + 1] == [c] + pairs[1..][..|t'.calls|];
      }
    }
  }

  /** Every call of a traversal but the last succeeded, and the error it returns is that of its last call. */
  lemma {:induction false} SweepErrors(step: (Call, nat) -> PairResult, pairs: seq<Call>, base: nat, d: DirState)
    ensures var t := Sweep(step, pairs, base, d);
            var rs := Outcomes(step, t.calls, base);
            && (forall k :: 0 <= k < |rs| - 1 ==> rs[k].err.None?)
            && (t.err.None? ==> forall k :: 0 <= k < |rs| ==> rs[k].err.None?)
            && (t.err.Some? ==> rs != [] && rs[|rs| - 1].err == t.err)
    decreases |pairs|
  {
    if pairs != [] {
      var c := pairs[0];
      var r := step(c, base);
      var t := Sweep(step, pairs, base, d);
      if r.err.Some? {
        var rs := Outcomes(step, t.calls, base);
        assert t.calls == [c] && rs[0] == r;
      } else {
        var t' := Sweep(step, pairs[1..], base + 1, Applied(d, r));
        SweepErrors(step, pairs[1..], base + 1, Applied(d, r));
        var rs' := Outcomes(step, t'.calls, base + 1);
        var rs := Outcomes(step, t.calls, base);
        assert t.calls == [c] + t'.calls && t.err == t'.err;
        assert forall k :: 0 < k < |rs| ==> rs[k] == rs'[k - 1];
        assert rs[0] == r;
      }
    }
  }

  /**
   * What a traversal does, stated call by call: the calls it makes are the
   * first pairs, in order; every call but the last succeeded; it returns no
   * error exactly when it made every call and all of them succeeded, and
   * otherwise the error of its last call.
   */
  lemma SweepMeaning(step: (Call, nat) -> PairResult, pairs: seq<Call>, base: nat, d: DirState)
    ensures var t := Sweep(step, pairs, base, d);
            var rs := Outcomes(step, t.calls, base);
            && t.calls <= pairs
            && (forall k :: 0 <= k < |rs| - 1 ==> rs[k].err.None?)
            && (t.err.None? <==> t.calls == pairs && forall k :: 0 <= k < |rs| ==> rs[k].err.None?)
            && (t.err.Some? ==> t.calls != [] && rs[|rs| - 1].err == t.err)
  {
    SweepCalls(step, pairs, base, d);
    SweepErrors(step, pairs, base, d);
  }

  /** The directory a traversal leaves is the start directory with the outcomes of exactly its calls applied in order. */
  lemma {:induction false} SweepDirectory(step: (Call, nat) -> PairResult, pairs: seq<Call>, base: nat, d: DirState)
    ensures var t := Sweep(step, pairs, base, d);
            t.dir == After(d, Outcomes(step, t.calls, base))
    decreases |pairs|
  {
    if pairs != [] {
      var c := pairs[0];
      var r := step(c, base);
      if r.err.Some? {
        var rs := Outcomes(step, [c], base);
        assert rs == [r];
        assert After(d, rs) == After(Applied(d, r), []);
      } else {
        var t' := Sweep(step, pairs[1..], base + 1, Applied(d, r));
        SweepDirectory(step, pairs[1..], base + 1, Applied(d, r));
        var rs' := Outcomes(step, t'.calls, base + 1);
        var rs := Outcomes(step, [c] + t'.calls, base);
        assert rs == [r] + rs';
        assert rs[1..] == rs';
      }
    }
  }

  lemma MulSucc(a: nat, n: nat)
    ensures (a + 1) * n == a * n + n
  {
  }

  lemma {:induction false} AllPairsLength(apis: seq<string>, tcs: seq<TestCase>)
    ensures |AllPairs(apis, tcs)| == |apis| * |tcs|
  {
    if apis != [] {
      ApiRowIndex(apis[0], tcs);
      AllPairsLength(apis[1..], tcs);
      MulSucc(|apis| - 1, |tcs|);
    }
  }

  /**
   * The pairs are all (api, test case) combinations with the api in the outer
   * loop: there are |apis| * |tcs| of them and entry i * |tcs| + j holds api i
   * and test case j.
   */
  lemma {:induction false} AllPairsIndex(apis: seq<string>, tcs: seq<TestCase>, i: nat, j: nat)
    requires i < |apis| && j < |tcs|
    ensures |AllPairs(apis, tcs)| == |apis| * |tcs|
    ensures i * |tcs| + j < |AllPairs(apis, tcs)|
    ensures AllPairs(apis, tcs)[i * |tcs| + j] == Call(apis[i], tcs[j])
  {
    var n := |tcs|;
    AllPairsLength(apis, tcs);
    var row := ApiRow(apis[0], tcs);
    ApiRowIndex(apis[0], tcs);
    var rest := AllPairs(apis[1..], tcs);
    assert AllPairs(apis, tcs) == row + rest;
    if i == 0 {
      assert 0 * n + j == j;
      assert (row + rest)[j] == row[j];
    } else {
      var k := (i - 1) * n + j;
      AllPairsIndex(apis[1..], tcs, i - 1, j);
      MulSucc(i - 1, n);
      assert i * n + j == n + k;
      assert (row + rest)[n + k] == rest[k];
      assert apis[1..][i - 1] == apis[i];
    }
  }


  /** Without test cases there is nothing to measure. */
  lemma {:induction false} AllPairsNoCases(apis: seq<string>)
    ensures AllPairs(apis, []) == []
  {
    if apis != [] {
      AllPairsNoCases(apis[1..]);
    }
  }

  /**
   * measure's two loops from api i and test case j on, with done the calls
   * already made and the next call being attack number base.
   */
  function Walk(step: (Call, nat) -> PairResult, apis: seq<string>, tcs: seq<TestCase>, i: nat, j: nat,
                done: seq<Call>, base: nat, d: DirState): Trace
    requires i <= |apis| && j <= |tcs|
    decreases |apis| - i, |tcs| - j
  {
    if i == |apis| then Trace(done, None, d)
    else if j == |tcs| then Walk(step, apis, tcs, i + 1, 0, done, base, d)
    else
      var r := step(Call(apis[i], tcs[j]), base);
      if r.err.Some? then Trace(done + [Call(apis[i], tcs[j])], r.err, Applied(d, r))
      else Walk(step, apis, tcs, i, j + 1, done + [Call(apis[i], tcs[j])], base + 1, Applied(d, r))
  }

  /** One inner iteration: test case j of api i is measured, and the loops go on exactly when it succeeded. */
  lemma WalkNextCase(step: (Call, nat) -> PairResult, apis: seq<string>, tcs: seq<TestCase>, i: nat, j: nat,
                     done: seq<Call>, base: nat, d: DirState, e: Option<Error>, d': DirState)
    requires i < |apis| && j < |tcs|
    requires e == step(Call(apis[i], tcs[j]), base).err && d' == Applied(d, step(Call(apis[i], tcs[j]), base))
    ensures Walk(step, apis, tcs, i, j, done, base, d) ==
            if e.Some? then Trace(done + [Call(apis[i], tcs[j])], e, d')
            else Walk(step, apis, tcs, i, j + 1, done + [Call(apis[i], tcs[j])], base + 1, d')
  {
  }

  /** The inner loop is over: the outer loop moves to the next api. */
  lemma WalkNextApi(step: (Call, nat) -> PairResult, apis: seq<string>, tcs: seq<TestCase>, i: nat,
                    done: seq<Call>, base: nat, d: DirState)
    requires i < |apis|
    ensures Walk(step, apis, tcs, i, |tcs|, done, base, d) == Walk(step, apis, tcs, i + 1, 0, done, base, d)
  {
  }

  /** The pairs the loops still have to visit from api i and test case j on. */
  function Pending(apis: seq<string>, tcs: seq<TestCase>, i: nat, j: nat): seq<Call>
    requires i <= |apis| && j <= |tcs|
  {
    if i == |apis| then [] else ApiRow(apis[i], tcs[j..]) + AllPairs(apis[i + 1..], tcs)
  }

  /** A traversal measures its first pair, and goes on exactly when that succeeded. */
  lemma SweepFirst(step: (Call, nat) -> PairResult, c: Call, rest: seq<Call>, base: nat, d: DirState)
    ensures var r := step(c, base);
            var t' := Sweep(step, rest, base + 1, Applied(d, r));
            Sweep(step, [c] + rest, base, d) ==
            if r.err.Some? then Trace([c], r.err, Applied(d, r)) else Trace([c] + t'.calls, t'.err, t'.dir)
  {
    assert ([c] + rest)[0] == c && ([c] + rest)[1..] == rest;
  }

  /** After the last test case of api i come the pairs of api i + 1. */
  lemma PendingNextApi(apis: seq<string>, tcs: seq<TestCase>, i: nat)
    requires i < |apis|
    ensures Pending(apis, tcs, i, |tcs|) == Pending(apis, tcs, i + 1, 0)
  {
    assert tcs[|tcs|..] == [];
    assert ApiRow(apis[i], []) == [];
    var rest := apis[i + 1..];
    if i + 1 < |apis| {
      assert tcs[0..] == tcs;
      assert rest[0] == apis[i + 1] && rest[1..] == apis[i + 2..];
      assert AllPairs(rest, tcs) == ApiRow(apis[i + 1], tcs) + AllPairs(apis[i + 2..], tcs);
    } else {
      assert rest == [];
    }
  }

  /** Test case j of api i is the next pair. */
  lemma PendingNextCase(apis: seq<string>, tcs: seq<TestCase>, i: nat, j: nat)
    requires i < |apis| && j < |tcs|
    ensures Pending(apis, tcs, i, j) == [Call(apis[i], tcs[j])] + Pending(apis, tcs, i, j + 1)
  {
    assert tcs[j..][0] == tcs[j] && tcs[j..][1..] == tcs[j + 1..];
    assert ApiRow(apis[i], tcs[j..]) == [Call(apis[i], tcs[j])] + ApiRow(apis[i], tcs[j + 1..]);
  }

  /** The loops from any point on are the traversal of the pairs still pending. */
  lemma {:induction false} WalkSweep(step: (Call, nat) -> PairResult, apis: seq<string>, tcs: seq<TestCase>,
                                     i: nat, j: nat, done: seq<Call>, base: nat, d: DirState)
    requires i <= |apis| && j <= |tcs|
    ensures var t := Sweep(step, Pending(apis, tcs, i, j), base, d);
            Walk(step, apis, tcs, i, j, done, base, d) == Trace(done + t.calls, t.err, t.dir)
    decreases |apis| - i, |tcs| - j
  {
    if i == |apis| {
      assert Pending(apis, tcs, i, j) == [];
      assert done + [] == done;
    } else if j == |tcs| {
      assert Walk(step, apis, tcs, i, j, done, base, d) == Walk(step, apis, tcs, i + 1, 0, done, base, d);
      WalkSweep(step, apis, tcs, i + 1, 0, done, base, d);
      PendingNextApi(apis, tcs, i);
    } else {
      var c := Call(apis[i], tcs[j]);
      var r := step(c, base);
      var rest := Pending(apis, tcs, i, j + 1);
      PendingNextCase(apis, tcs, i, j);
      SweepFirst(step, c, rest, base, d);
      assert Walk(step, apis, tcs, i, j, done, base, d) ==
             if r.err.Some? then Trace(done + [c], r.err, Applied(d, r))
             else Walk(step, apis, tcs, i, j + 1, done + [c], base + 1, Applied(d, r));
      if r.err.None? {
        WalkSweep(step, apis, tcs, i, j + 1, done + [c], base + 1, Applied(d, r));
        var t' := Sweep(step, rest, base + 1, Applied(d, r));
        assert (done + [c]) + t'.calls == done + ([c] + t'.calls);
      }
    }
  }

  /** From the start, the loops are the traversal of every pair in api-outer order. */
  lemma WalkAllPairs(step: (Call, nat) -> PairResult, apis: seq<string>, tcs: seq<TestCase>, base: nat, d: DirState)
    ensures Walk(step, apis, tcs, 0, 0, [], base, d) == Sweep(step, AllPairs(apis, tcs), base, d)
  {
    WalkSweep(step, apis, tcs, 0, 0, [], base, d);
    if apis != [] {
      assert tcs[0..] == tcs && apis[1..] == apis[0 + 1..];
    }
    assert Pending(apis, tcs, 0, 0) == AllPairs(apis, tcs);
  }

  // ---------------------------------------------------------------------------
  // The output directory

  /** The output directory: os.Create succeeds on the writable paths and truncates the file. */
  class OutputDir {
    var files: map<string, seq<Row>>
    ghost var attempts: seq<string>
    const writable: string -> bool

    ghost function State(): DirState
      reads this
    {
      DirState(files, attempts)
    }

    constructor (files: map<string, seq<Row>>, writable: string -> bool)
      ensures this.files == files && this.writable == writable && attempts == []
    {
      this.files := files;
      this.writable := writable;
      attempts := [];
    }

    /** os.Create(path) followed by the CSV writer's WriteAll(rows), whose error is not looked at. */
    method Create(path: string, rows: seq<Row>) returns (ok: bool)
      modifies this
      ensures ok == writable(path)
      ensures attempts == old(attempts) + [path]
      ensures files == if ok then old(files)[path := rows] else old(files)
    {
      attempts := attempts + [path];
      ok := writable(path);
      if ok {
        files := files[path := rows];
      }
    }
  }

  // ---------------------------------------------------------------------------
  // The measurement

  class Measurement {
    const ApiAddresses: seq<string>
    const InputFilePath: string
    const OutputPath: string
    var testCases: seq<TestCase>
    /** The measureAnApi calls made so far; the length numbers the next attack. */
    var calls: seq<Call>

    /** NewMeasurement: the three settings, no test cases. */
    constructor (apiAddresses: seq<string>, inputFilePath: string, outputPath: string)
      ensures ApiAddresses == apiAddresses && InputFilePath == inputFilePath && OutputPath == outputPath
      ensures testCases == [] && calls == []
    {
      ApiAddresses := apiAddresses;
      InputFilePath := inputFilePath;
      OutputPath := outputPath;
      testCases := [];
      calls := [];
    }

    /** readInputFile: append one test case per record until the first bad concurrency field. */
    method ReadInputFile(env: Env) returns (err: Option<Error>)
      requires env.readCsv(InputFilePath).Decoded? ==> HasTwoFields(env.readCsv(InputFilePath).records)
      modifies this`testCases
      ensures testCases == old(testCases) + Load(env.readCsv(InputFilePath), InputFilePath).cases
      ensures err == Load(env.readCsv(InputFilePath), InputFilePath).err
    {
      var src := env.readCsv(InputFilePath);
      if src.OpenFailed? {
        return Some(OpenError(InputFilePath));
      }
      if src.DecodeFailed? {
        return Some(CsvError(InputFilePath));
      }
      var records := src.records;
      ghost var bad := FirstBadRow(records);
      var index := 0;
      while index < |records|
        invariant index <= bad
        invariant testCases == old(testCases) + Cases(records, index)
      {
        var concurrent := ParseInt(records[index][1]);
        if concurrent.Err? {
          assert bad == index;
          return Some(ParseError(concurrent.error));
        }
        assert index < bad;
        assert CaseAt(records, index) == TestCase(index, records[index][0], concurrent.value);
        testCases := testCases + [TestCase(index, records[index][0], concurrent.value)];
        index := index + 1;
      }
      assert bad == |records|;
      return None;
    }

    /** writeResultFile: create OutputPath/name.csv and write the rows into it. */
    method WriteResultFile(dir: OutputDir, name: string, data: seq<Row>) returns (err: Option<Error>)
      modifies dir
      ensures var path := ResultFile(OutputPath, name);
              && dir.attempts == old(dir.attempts) + [path]
              && err == (if dir.writable(path) then None else Some(CreateError(path)))
              && dir.files == if dir.writable(path) then old(dir.files)[path := data] else old(dir.files)
    {
      var path := ResultFile(OutputPath, name);
      var ok := dir.Create(path, data);
      if !ok {
        return Some(CreateError(path));
      }
      return None;
    }

    /**
     * The loop of measureAnApi over the attacker's results: the k-th result,
     * counting from 1, is labelled query_k and adds one row to each list; the
     * first body that does not compact ends the loop with its error.
     */
    static method CollectResults(query: string, hits: seq<Hit>, compact: string -> Option<string>)
      returns (err: Option<Error>, bodyResponses: seq<Row>, latencies: seq<Row>)
      ensures var k := FirstUncompactable(hits, compact);
              err == if k < |hits| then Some(CompactError(hits[k].body)) else None
      ensures err.None? ==> AllCompact(hits, compact) &&
                            bodyResponses == ResponseRows(query, hits, compact) &&
                            latencies == LatencyRows(query, hits)
    {
      bodyResponses := [];
      latencies := [];
      var idx := 1;
      while idx <= |hits|
        invariant 1 <= idx <= |hits| + 1
        invariant AllCompact(hits[..idx - 1], compact)
        invariant bodyResponses == ResponseRows(query, hits[..idx - 1], compact)
        invariant latencies == LatencyRows(query, hits[..idx - 1])
      {
        var res := hits[idx - 1];
        var name := Label(query, idx);
        var dst := compact(res.body);
        if dst.None? {
          FirstUncompactableIs(hits, compact, idx - 1);
          return Some(CompactError(res.body)), bodyResponses, latencies;
        }
        RowsSnoc(query, hits, idx - 1, compact);
        bodyResponses := bodyResponses + [[name, dst.value]];
        latencies := latencies + [[name, res.latencySeconds]];
        idx := idx + 1;
      }
      assert hits[..|hits|] == hits;
      FirstUncompactableNone(hits, compact);
      return None, bodyResponses, latencies;
    }

    /** measureAnApi: attack one pair, label and collect its results, then write the two files. */
    method MeasureAnApi(api: string, testcase: TestCase, env: Env, dir: OutputDir) returns (err: Option<Error>)
      modifies this`calls, dir
      ensures calls == old(calls) + [Call(api, testcase)]
      ensures var r := Outcome(OutputPath, env, dir.writable)(Call(api, testcase), |old(calls)|);
              err == r.err && dir.State() == Applied(old(dir.State()), r)
    {
      var plan := Plan(api, testcase);
      var hits := env.attack(|calls|, plan);
      calls := calls + [Call(api, testcase)];
      var bodyResponses, latencies;
      err, bodyResponses, latencies := CollectResults(testcase.query, hits, env.compact);
      if err.Some? {
        return;
      }
      ResultFilesDistinct(OutputPath, testcase.query);
      ghost var rp := ResponseFile(OutputPath, testcase.query);
      ghost var lp := LatencyFile(OutputPath, testcase.query);
      err := WriteResultFile(dir, testcase.query + ".response", bodyResponses);
      if err.Some? {
        return;
      }
      ghost var w1 := Write(rp, bodyResponses);
      ghost var w2 := Write(lp, latencies);
      ApplyTwo(old(dir.files), w1, w2);
      err := WriteResultFile(dir, testcase.query + ".latency", latencies);
    }

    /**
     * The inner loop of measure for api i: every test case in order, stopping
     * at the first error; done are the calls the outer loop made before.
     */
    method MeasureTestCases(i: nat, env: Env, dir: OutputDir, ghost done: seq<Call>)
      returns (err: Option<Error>, ghost row: seq<Call>)
      requires i < |ApiAddresses|
      modifies this`calls, dir
      ensures calls == old(calls) + row
      ensures var step := Outcome(OutputPath, env, dir.writable);
              Walk(step, ApiAddresses, testCases, i, 0, done, |old(calls)|, old(dir.State())) ==
              if err.Some? then Trace(done + row, err, dir.State())
              else Walk(step, ApiAddresses, testCases, i + 1, 0, done + row, |calls|, dir.State())
    {
      ghost var step := Outcome(OutputPath, env, dir.writable);
      ghost var whole := Walk(step, ApiAddresses, testCases, i, 0, done, |calls|, dir.State());
      row := [];
      assert done + row == done;
      var api := ApiAddresses[i];
      var j := 0;
      while j < |testCases|
        invariant 0 <= j <= |testCases|
        invariant calls == old(calls) + row
        invariant whole == Walk(step, ApiAddresses, testCases, i, j, done + row, |calls|, dir.State())
      {
        ghost var d0 := dir.State();
        ghost var k := |calls|;
        err := MeasureAnApi(api, testCases[j], env, dir);
        WalkNextCase(step, ApiAddresses, testCases, i, j, done + row, k, d0, err, dir.State());
        assert (done + row) + [Call(api, testCases[j])] == done + (row + [Call(api, testCases[j])]);
        row := row + [Call(api, testCases[j])];
        if err.Some? {
          return;
        }
        j := j + 1;
      }
      WalkNextApi(step, ApiAddresses, testCases, i, done + row, |calls|, dir.State());
      err := None;
    }

    /**
     * measure: every api, and for each every test case, stopping at the first
     * error; the calls, the error and the directory are those of the
     * traversal of all pairs in api-outer order.
     */
    method Measure(env: Env, dir: OutputDir) returns (err: Option<Error>)
      modifies this`calls, dir
      ensures var t := Walk(Outcome(OutputPath, env, dir.writable), ApiAddresses, testCases, 0, 0, [], |old(calls)|,
                            old(dir.State()));
              calls == old(calls) + t.calls && err == t.err && dir.State() == t.dir
    {
      ghost var step := Outcome(OutputPath, env, dir.writable);
      ghost var whole := Walk(step, ApiAddresses, testCases, 0, 0, [], |calls|, dir.State());
      ghost var done: seq<Call> := [];
      var i := 0;
      while i < |ApiAddresses|
        invariant 0 <= i <= |ApiAddresses|
        invariant calls == old(calls) + done
        invariant whole == Walk(step, ApiAddresses, testCases, i, 0, done, |calls|, dir.State())
      {
        var e;
        ghost var row;
        e, row := MeasureTestCases(i, env, dir, done);
        done := done + row;
        if e.Some? {
          return e;
        }
        i := i + 1;
      }
      return None;
    }

    /** Run: load the test cases, and measure only if loading succeeded. */
    method Run(env: Env, dir: OutputDir) returns (err: Option<Error>)
      requires env.readCsv(InputFilePath).Decoded? ==> HasTwoFields(env.readCsv(InputFilePath).records)
      modifies this`testCases, this`calls, dir
      ensures var l := Load(env.readCsv(InputFilePath), InputFilePath);
              && testCases == old(testCases) + l.cases
              && (l.err.Some? ==> err == l.err && calls == old(calls) && dir.State() == old(dir.State()))
              && (l.err.None? ==>
                    var t := Sweep(Outcome(OutputPath, env, dir.writable), AllPairs(ApiAddresses, testCases), |old(calls)|,
                                   old(dir.State()));
                    calls == old(calls) + t.calls && err == t.err && dir.State() == t.dir)
    {
      err := ReadInputFile(env);
      if err.Some? {
        return;
      }
      ghost var d0 := dir.State();
      err := Measure(env, dir);
      WalkAllPairs(Outcome(OutputPath, env, dir.writable), ApiAddresses, testCases, |old(calls)|, d0);
    }
  }
}
