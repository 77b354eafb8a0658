/** Run records, output commits, and the aggregation of run evidence. SHA-256, the JSON encoders and
    time.Parse are parameters: nothing is assumed of them unless a contract says so. */
module Evidence {
  import opened Order
  import opened Contract
  import opened Pipelines
  import opened Canonical

  const OUTPUT_COMMIT := "dhnt.output-commit/v1"
  const COMMIT_DIGEST := "sha256-output-commit-v1"
  const AGGREGATE := "dhnt.aggregate/v1"

  datatype OutputCommit = OutputCommit(schema: string, digestAlgorithm: string, sha256: string)

  datatype Executor = Executor(node: string, backend: string, os: string, arch: string)

  datatype Run = Run(
    schema: string, pipeline: string, task: string, run: string, source: Source, inputs: seq<Artifact>,
    executor: Executor, result: string, exitCode: Option<int>, outputs: seq<Artifact>,
    outputCommit: Option<OutputCommit>, startedAt: string, finishedAt: string, traceId: string)

  /** sha256: hex digest of bytes. manifest and run: the JSON line of a value. instant: time.Parse. */
  datatype Codec = Codec(
    sha256: string -> string, manifest: seq<Artifact> -> string, run: Run -> string, instant: string -> Option<int>)

  // ----- output commits -----

  function ManifestBytes(c: Codec, outputs: seq<Artifact>): string { c.manifest(SortedArtifacts(outputs)) }

  /** NewOutputCommit on artifacts that validate. */
  function CommitOf(c: Codec, outputs: seq<Artifact>): OutputCommit {
    OutputCommit(OUTPUT_COMMIT, COMMIT_DIGEST, c.sha256(ManifestBytes(c, outputs)))
  }

  ghost predicate ValidOutputCommit(c: Codec, commit: Option<OutputCommit>, outputs: seq<Artifact>) {
    commit.Some? && ValidDigest(commit.value.sha256) && ValidArtifacts(outputs, RUN_V2) &&
    commit.value == CommitOf(c, outputs)
  }

  /** A commit names its output set: two commits agree exactly on equal sets, unless the manifest
      encoder or SHA-256 collides on these very values. */
  lemma CommitExact(c: Codec, a: seq<Artifact>, b: seq<Artifact>)
    requires ValidArtifacts(a, RUN_V2) && ValidArtifacts(b, RUN_V2)
    ensures multiset(a) == multiset(b) ==> CommitOf(c, a) == CommitOf(c, b)
    ensures CommitOf(c, a) == CommitOf(c, b) ==>
            multiset(a) == multiset(b) ||
            (SortedArtifacts(a) != SortedArtifacts(b) && ManifestBytes(c, a) == ManifestBytes(c, b)) ||
            (ManifestBytes(c, a) != ManifestBytes(c, b) &&
             c.sha256(ManifestBytes(c, a)) == c.sha256(ManifestBytes(c, b)))
  {
    SortByCanonical(a, b, ArtifactName);
  }

  // ----- Run.Validate -----

  function PlatformOf(e: Executor): Platform { Platform(e.backend, e.os, e.arch) }

  predicate UtcInstant(c: Codec, s: string) { s != "" && s[|s| - 1] == 'Z' && c.instant(s).Some? }

  predicate ValidTrace(s: string) {
    |s| == 32 && (forall k :: k in s ==> LowerHex(k)) && exists k :: k in s && k != '0'
  }

  predicate ValidResult(result: string, exitCode: Option<int>) {
    result in [PASS, TEST_FAIL, INFRA_FAIL, INCOMPLETE, CANCELED] && exitCode.Some? && exitCode.value >= 0 &&
    (result == PASS ==> exitCode.value == 0) && (result == TEST_FAIL ==> exitCode.value != 0)
  }

  ghost predicate ValidRun(c: Codec, r: Run) {
    (r.schema == RUN_V1 || r.schema == RUN_V2) && ValidId(r.pipeline) && ValidId(r.task) && ValidId(r.run) &&
    ValidSource(r.source) && ValidArtifacts(r.inputs, r.schema) && ValidArtifacts(r.outputs, r.schema) &&
    (if r.schema == RUN_V2 &&
     r.result == PASS then ValidOutputCommit(c, r.outputCommit, r.outputs) else r.outputCommit == None) &&
    !Blank(r.executor.node) && '\0' !in r.executor.node && ValidPlatform(PlatformOf(r.executor)) &&
    ValidResult(r.result, r.exitCode) &&
    UtcInstant(c, r.startedAt) && UtcInstant(c, r.finishedAt) &&
    c.instant(r.startedAt).value <= c.instant(r.finishedAt).value && ValidTrace(r.traceId)
  }

  /** What MarshalRun writes of a valid record. */
  function RunBytes(c: Codec, r: Run): string {
    c.run(r.(inputs := SortedArtifacts(r.inputs), outputs := SortedArtifacts(r.outputs)))
  }

  method ValidateOutputCommit(c: Codec, commit: Option<OutputCommit>, outputs: seq<Artifact>) returns (ok: bool)
    ensures ok <==> ValidOutputCommit(c, commit, outputs)
  {
    if commit == None || !ValidDigest(commit.value.sha256) { return false; }
    ok := ValidateArtifacts(outputs, true, RUN_V2);
    ok := ok && commit.value == CommitOf(c, outputs);
  }

  method ValidateRun(c: Codec, r: Run) returns (ok: bool)
    ensures ok <==> ValidRun(c, r)
  {
    if r.schema != RUN_V1 && r.schema != RUN_V2 { return false; }
    if !ValidId(r.pipeline) || !ValidId(r.task) || !ValidId(r.run) || !ValidSource(r.source) { return false; }
    ok := ValidateArtifacts(r.inputs, true, r.schema);
    if !ok { return; }
    ok := ValidateArtifacts(r.outputs, true, r.schema);
    if !ok { return; }
    if r.schema == RUN_V2 && r.result == PASS {
      ok := ValidateOutputCommit(c, r.outputCommit, r.outputs);
    } else {
      ok := r.outputCommit == None;
    }
    if !ok { return; }
    if Blank(r.executor.node) || '\0' in r.executor.node || !ValidPlatform(PlatformOf(r.executor)) { return false; }
    if !ValidResult(r.result, r.exitCode) || !UtcInstant(c, r.startedAt) || !UtcInstant(c, r.finishedAt) {
      return false;
    }
    return c.instant(r.startedAt).value <= c.instant(r.finishedAt).value && ValidTrace(r.traceId);
  }

  // ----- Aggregate -----

  datatype AggregateResult = AggregateResult(schema: string, pipeline: string, result: string, runs: seq<string>)

  function RunId(r: Run): string { r.run }
  function RunKey(r: Run): string { MatrixKey(r.task, PlatformOf(r.executor)) }

  /** The ids in the order the runs came. */
  function RunIds(runs: seq<Run>): seq<string> {
    if runs == [] then [] else RunIds(runs[..|runs| - 1]) + [runs[|runs| - 1].run]
  }

  lemma {:induction false} RunIdsMap(runs: seq<Run>)
    ensures RunIds(runs) == Map(RunId, runs)
  {
    if runs != [] {
      var front := runs[..|runs| - 1];
      RunIdsMap(front);
      assert runs == front + [runs[|runs| - 1]];
      MapConcat(RunId, front, [runs[|runs| - 1]]);
    }
  }

  function EvidenceSchema(p: Pipeline): string { if p.schema == PIPELINE_V2 then RUN_V2 else RUN_V1 }

  /** The run is passing evidence for exactly this row. */
  ghost predicate Attests(r: Run, row: MatrixEntry) {
    r.task == row.task && PlatformOf(r.executor) == row.platform && r.result == PASS &&
    multiset(r.inputs) == multiset(row.inputs) && multiset(r.outputs) == multiset(row.outputs)
  }

  ghost predicate ForPipeline(c: Codec, p: Pipeline, r: Run) {
    ValidRun(c, r) && r.schema == EvidenceSchema(p) && r.pipeline == p.pipeline && r.source == p.source
  }

  ghost predicate RowAttested(row: MatrixEntry, runs: seq<Run>) { exists r :: r in runs && Attests(r, row) }

  ghost predicate RunAttests(r: Run, rows: seq<MatrixEntry>) { exists row :: row in rows && Attests(r, row) }

  /** Runs and rows correspond one to one: as many runs as rows, each run attests a row and each row
      is attested. */
  ghost predicate Corresponds(c: Codec, p: Pipeline, runs: seq<Run>) {
    |runs| == |p.matrix| && (forall r :: r in runs ==> ForPipeline(c, p, r) && RunAttests(r, p.matrix)) &&
    (forall row :: row in p.matrix ==> RowAttested(row, runs)) && Distinct(runs, RunId)
  }

  lemma SameArtifacts(a: seq<Artifact>, b: seq<Artifact>)
    ensures Distinct(a, ArtifactName) ==> (SortedArtifacts(a) == SortedArtifacts(b) <==> multiset(a) == multiset(b))
  {
    hide Distinct, SortBy;
    if Distinct(a, ArtifactName) { SortByCanonical(a, b, ArtifactName); }
  }

  /** equalArtifacts: the same artifacts, in any order. */
  method EqualArtifacts(a: seq<Artifact>, b: seq<Artifact>) returns (equal: bool)
    ensures equal <==> SortedArtifacts(a) == SortedArtifacts(b)
    ensures Distinct(a, ArtifactName) ==> (equal <==> multiset(a) == multiset(b))
  {
    hide Distinct, SortBy;
    SameArtifacts(a, b);
    var x, y := SortedArtifacts(a), SortedArtifacts(b);
    if |x| != |y| { return false; }
    for i := 0 to |x|
      invariant x[..i] == y[..i]
    {
      if x[i] != y[i] { return false; }
    }
    assert x == x[..|x|] && y == y[..|y|];
    return true;
  }

  /** The map of expected rows the aggregator fills. */
  function RowsByKey(rows: seq<MatrixEntry>): map<string, MatrixEntry> { IndexBy(rows, RowKey) }

  /** The per-run checks of the aggregator against the row its key names. */
  ghost predicate RunMatches(c: Codec, p: Pipeline, expected: map<string, MatrixEntry>, r: Run) {
    ForPipeline(c, p, r) && RunKey(r) in expected && r.result == PASS &&
    SortedArtifacts(r.inputs) == SortedArtifacts(expected[RunKey(r)].inputs) &&
    SortedArtifacts(r.outputs) == SortedArtifacts(expected[RunKey(r)].outputs)
  }

  ghost predicate AllMatch(c: Codec, p: Pipeline, expected: map<string, MatrixEntry>, runs: seq<Run>) {
    (forall r :: r in runs ==> RunMatches(c, p, expected, r)) && Distinct(runs, RunKey) && Distinct(runs, RunId)
  }

  lemma MatchSnoc(c: Codec, p: Pipeline, expected: map<string, MatrixEntry>, front: seq<Run>, r: Run)
    requires AllMatch(c, p, expected, front)
    ensures AllMatch(c, p, expected, front + [r]) <==>
            RunMatches(c, p, expected, r) && RunKey(r) !in KeySet(front, RunKey) && r.run !in KeySet(front, RunId)
  {
    DistinctSnoc(front, r, RunKey);
    DistinctSnoc(front, r, RunId);
    hide RunMatches, KeySet, Distinct;
    assert forall x :: x in front + [r] <==> x in front || x == r;
  }

  lemma MatchPrefix(c: Codec, p: Pipeline, expected: map<string, MatrixEntry>, runs: seq<Run>, n: nat)
    requires n <= |runs| && AllMatch(c, p, expected, runs)
    ensures AllMatch(c, p, expected, runs[..n])
  {
    DistinctPrefix(runs, n, RunKey);
    DistinctPrefix(runs, n, RunId);
  }

  predicate RowNamed(row: MatrixEntry) { ValidId(row.task) && ValidPlatform(row.platform) }

  /** All the aggregator needs of a valid pipeline. */
  ghost predicate RowsNamed(rows: seq<MatrixEntry>) {
    Distinct(rows, RowKey) && forall row :: row in rows ==> RowNamed(row)
  }

  lemma ValidRowsNamed(p: Pipeline)
    requires ValidPipeline(p)
    ensures RowsNamed(p.matrix)
  {
    ByIdExact(p.tasks);
    forall row | row in p.matrix ensures RowNamed(row) {
      assert RowOk(p.schema, ById(p.tasks), row);
      assert TaskOk(p.schema, ById(p.tasks)[row.task]);
    }
  }

  lemma MatchIsAttest(c: Codec, p: Pipeline, r: Run, row: MatrixEntry)
    requires RowNamed(row) && ForPipeline(c, p, r)
    ensures Attests(r, row) <==>
            RunKey(r) == RowKey(row) && r.result == PASS &&
            SortedArtifacts(r.inputs) == SortedArtifacts(row.inputs) &&
            SortedArtifacts(r.outputs) == SortedArtifacts(row.outputs)
  {
    MatrixKeyInjective(r.task, PlatformOf(r.executor), row.task, row.platform);
    SortByCanonical(r.inputs, row.inputs, ArtifactName);
    SortByCanonical(r.outputs, row.outputs, ArtifactName);
  }

  /** The keyed checks amount to a one-to-one correspondence. */
  lemma MatchIsCorrespondence(c: Codec, p: Pipeline, runs: seq<Run>)
    requires RowsNamed(p.matrix)
    ensures var expected := RowsByKey(p.matrix);
            AllMatch(c, p, expected, runs) && expected.Keys <= KeySet(runs, RunKey) <==> Corresponds(c, p, runs)
  {
    var expected := RowsByKey(p.matrix);
    if AllMatch(c, p, expected, runs) && expected.Keys <= KeySet(runs, RunKey) { MatchForward(c, p, runs); }
    if Corresponds(c, p, runs) { MatchBackward(c, p, runs); }
  }

  lemma MatchForward(c: Codec, p: Pipeline, runs: seq<Run>)
    requires RowsNamed(p.matrix) && AllMatch(c, p, RowsByKey(p.matrix), runs)
    requires RowsByKey(p.matrix).Keys <= KeySet(runs, RunKey)
    ensures Corresponds(c, p, runs)
  {
    EachAttests(c, p, runs);
    RunKeysAreRowKeys(c, p, runs);
    hide ForPipeline, RunMatches, KeySet, Distinct, RowsByKey, RunAttests;
    forall row | row in p.matrix ensures RowAttested(row, runs) { RowHasRun(c, p, runs, row); }
    CountDistinct(p.matrix, RowKey);
    CountDistinct(runs, RunKey);
  }

  lemma RunKeysAreRowKeys(c: Codec, p: Pipeline, runs: seq<Run>)
    requires RowsNamed(p.matrix) && AllMatch(c, p, RowsByKey(p.matrix), runs)
    requires RowsByKey(p.matrix).Keys <= KeySet(runs, RunKey)
    ensures KeySet(runs, RunKey) == RowsByKey(p.matrix).Keys == KeySet(p.matrix, RowKey)
  {
    IndexExact(p.matrix, RowKey);
    hide ForPipeline, RunMatches, KeySet, Distinct, RunKey, RowKey, RowNamed, IndexBy;
    forall k | k in KeySet(runs, RunKey) ensures k in RowsByKey(p.matrix) {
      var r := KeyFrom(runs, k, RunKey);
      MatchedKey(c, p, RowsByKey(p.matrix), r);
    }
  }

  lemma RowHasRun(c: Codec, p: Pipeline, runs: seq<Run>, row: MatrixEntry)
    requires RowsNamed(p.matrix) && AllMatch(c, p, RowsByKey(p.matrix), runs) && row in p.matrix
    requires RowsByKey(p.matrix).Keys <= KeySet(runs, RunKey)
    ensures RowAttested(row, runs)
  {
    EachAttests(c, p, runs);
    IndexExact(p.matrix, RowKey);
    hide ForPipeline, RunMatches, KeySet, Distinct, RunKey, RowKey, RowNamed, IndexBy, Attests, RunAttests;
    var r := KeyFrom(runs, RowKey(row), RunKey);
    assert Attests(r, row);
  }

  lemma EachAttests(c: Codec, p: Pipeline, runs: seq<Run>)
    requires RowsNamed(p.matrix) && AllMatch(c, p, RowsByKey(p.matrix), runs)
    ensures forall r :: r in runs ==> RunKey(r) in RowsByKey(p.matrix) && Attests(r, RowsByKey(p.matrix)[RunKey(r)])
    ensures forall r :: r in runs ==> ForPipeline(c, p, r) && RunAttests(r, p.matrix)
  {
    IndexExact(p.matrix, RowKey);
    hide IndexBy, ForPipeline, MatrixKey, SortBy, Attests, Distinct, KeySet;
    var expected := RowsByKey(p.matrix);
    forall r | r in runs ensures Attests(r, expected[RunKey(r)]) {
      MatchIsAttest(c, p, r, expected[RunKey(r)]);
    }
  }

  lemma MatchBackward(c: Codec, p: Pipeline, runs: seq<Run>)
    requires RowsNamed(p.matrix) && Corresponds(c, p, runs)
    ensures AllMatch(c, p, RowsByKey(p.matrix), runs) && RowsByKey(p.matrix).Keys <= KeySet(runs, RunKey)
  {
    EachMatches(c, p, runs);
    SameKeys(c, p, runs);
    hide IndexBy, ForPipeline, MatrixKey, SortBy, RunMatches, KeySet;
    CountDistinct(p.matrix, RowKey);
    CountDistinct(runs, RunKey);
  }

  lemma SameKeys(c: Codec, p: Pipeline, runs: seq<Run>)
    requires RowsNamed(p.matrix) && Corresponds(c, p, runs)
    ensures KeySet(runs, RunKey) == RowsByKey(p.matrix).Keys == KeySet(p.matrix, RowKey)
  {
    var expected := RowsByKey(p.matrix);
    IndexExact(p.matrix, RowKey);
    EachMatches(c, p, runs);
    hide IndexBy, ForPipeline, MatrixKey, SortBy, RunMatches, ValidRun, Attests, RunKey, RowKey, KeySet, Distinct;
    forall k | k in expected.Keys ensures k in KeySet(runs, RunKey) {
      assert RowAttested(expected[k], runs);
      var r :| r in runs && Attests(r, expected[k]);
      AttestedKey(r, expected[k]);
      KeyIn(runs, r, RunKey);
    }
    forall k | k in KeySet(runs, RunKey) ensures k in expected.Keys {
      var r := KeyFrom(runs, k, RunKey);
      MatchedKey(c, p, expected, r);
    }
    assert KeySet(runs, RunKey) == expected.Keys;
  }

  lemma EachMatches(c: Codec, p: Pipeline, runs: seq<Run>)
    requires RowsNamed(p.matrix) && Corresponds(c, p, runs)
    ensures forall r :: r in runs ==> RunMatches(c, p, RowsByKey(p.matrix), r)
  {
    IndexExact(p.matrix, RowKey);
    hide IndexBy, ForPipeline, MatrixKey, SortBy;
    forall r | r in runs ensures RunMatches(c, p, RowsByKey(p.matrix), r) {
      assert RunAttests(r, p.matrix);
      var row :| row in p.matrix && Attests(r, row);
      MatchIsAttest(c, p, r, row);
    }
  }

  lemma AttestedKey(r: Run, row: MatrixEntry)
    requires Attests(r, row)
    ensures RunKey(r) == RowKey(row)
  {
  }

  lemma MatchedKey(c: Codec, p: Pipeline, expected: map<string, MatrixEntry>, r: Run)
    requires RunMatches(c, p, expected, r)
    ensures RunKey(r) in expected
  {
  }

  method CheckRun(c: Codec, p: Pipeline, expected: map<string, MatrixEntry>, r: Run) returns (ok: bool)
    ensures ok <==> RunMatches(c, p, expected, r)
  {
    ok := ValidateRun(c, r);
    if !ok || r.schema != EvidenceSchema(p) || r.pipeline != p.pipeline || r.source != p.source { return false; }
    if RunKey(r) !in expected || r.result != PASS { return false; }
    ok := EqualArtifacts(r.inputs, expected[RunKey(r)].inputs);
    if !ok { return; }
    ok := EqualArtifacts(r.outputs, expected[RunKey(r)].outputs);
  }

  lemma CollectStep(c: Codec, p: Pipeline, expected: map<string, MatrixEntry>, runs: seq<Run>, i: nat)
    requires i < |runs| && AllMatch(c, p, expected, runs[..i])
    ensures AllMatch(c, p, expected, runs[..i + 1]) <==>
            RunMatches(c, p, expected, runs[i]) &&
            RunKey(runs[i]) !in KeySet(runs[..i], RunKey) && runs[i].run !in KeySet(runs[..i], RunId)
    ensures AllMatch(c, p, expected, runs) ==> AllMatch(c, p, expected, runs[..i + 1])
    ensures KeySet(runs[..i + 1], RunKey) == KeySet(runs[..i], RunKey) + {RunKey(runs[i])}
    ensures KeySet(runs[..i + 1], RunId) == KeySet(runs[..i], RunId) + {runs[i].run}
    ensures RunIds(runs[..i + 1]) == RunIds(runs[..i]) + [runs[i].run]
  {
    hide AllMatch, RunMatches, KeySet;
    assert runs[..i + 1][..i] == runs[..i];
    assert runs[..i + 1] == runs[..i] + [runs[i]];
    MatchSnoc(c, p, expected, runs[..i], runs[i]);
    KeySetSnoc(runs[..i], runs[i], RunKey);
    KeySetSnoc(runs[..i], runs[i], RunId);
    if AllMatch(c, p, expected, runs) { MatchPrefix(c, p, expected, runs, i + 1); }
  }

  method CollectRuns(c: Codec, p: Pipeline, expected: map<string, MatrixEntry>, runs: seq<Run>)
    returns (ok: bool, seen: set<string>, accepted: seq<string>)
    ensures ok <==> AllMatch(c, p, expected, runs)
    ensures ok ==> seen == KeySet(runs, RunKey) && accepted == RunIds(runs)
  {
    var runIds: set<string> := {};
    seen, accepted := {}, [];
    for i := 0 to |runs|
      invariant AllMatch(c, p, expected, runs[..i])
      invariant accepted == RunIds(runs[..i])
      invariant seen == KeySet(runs[..i], RunKey) && runIds == KeySet(runs[..i], RunId)
    {
      var run := runs[i];
      CollectStep(c, p, expected, runs, i);
      ok := CheckRun(c, p, expected, run);
      if !ok || RunKey(run) in seen || run.run in runIds {
        ok := false;
        return;
      }
      seen, runIds, accepted := seen + {RunKey(run)}, runIds + {run.run}, accepted + [run.run];
    }
    assert runs[..|runs|] == runs;
    ok := true;
  }

  /** Aggregate succeeds exactly when the pipeline is valid and the runs correspond one to one to its
      matrix rows; it then lists the run ids in order. */
  method Aggregate(c: Codec, p: Pipeline, runs: seq<Run>) returns (r: Option<AggregateResult>)
    ensures r.Some? <==> ValidPipeline(p) && Corresponds(c, p, runs)
    ensures r.Some? ==> r.value == AggregateResult(AGGREGATE, p.pipeline, PASS, SortBy(RunIds(runs), Id))
  {
    var valid := Pipelines.Validate(p);
    if !valid { return None; }
    ValidRowsNamed(p);
    MatchIsCorrespondence(c, p, runs);
    var expected := Index(p.matrix, RowKey);
    var ok, seen, accepted := CollectRuns(c, p, expected, runs);
    if !ok || !(expected.Keys <= seen) { return None; }
    return Some(AggregateResult(AGGREGATE, p.pipeline, PASS, SortBy(accepted, Id)));
  }

  lemma IdsOrderFree(runs: seq<Run>, others: seq<Run>)
    requires multiset(runs) == multiset(others) && Distinct(runs, RunId)
    ensures SortBy(RunIds(runs), Id) == SortBy(RunIds(others), Id)
  {
    MapDistinct(RunId, runs, RunId, Id);
    MapMultiset(RunId, runs, others);
    RunIdsMap(runs);
    RunIdsMap(others);
    SortByCanonical(RunIds(runs), RunIds(others), Id);
  }

  lemma CorrespondsReordered(c: Codec, p: Pipeline, runs: seq<Run>, others: seq<Run>)
    requires multiset(runs) == multiset(others) && Corresponds(c, p, runs)
    ensures Corresponds(c, p, others)
  {
    PermutationMembers(runs, others);
    PermutationDistinct(runs, others, RunId);
    forall row | row in p.matrix ensures RowAttested(row, others) {
      assert RowAttested(row, runs);
      var r :| r in runs && Attests(r, row);
      assert r in others;
    }
  }

  /** Neither verdict nor result depends on the order of the runs. */
  lemma AggregateOrderFree(c: Codec, p: Pipeline, runs: seq<Run>, others: seq<Run>)
    requires multiset(runs) == multiset(others)
    ensures Corresponds(c, p, runs) <==> Corresponds(c, p, others)
    ensures Corresponds(c, p, runs) ==> SortBy(RunIds(runs), Id) == SortBy(RunIds(others), Id)
  {
    if Corresponds(c, p, runs) {
      CorrespondsReordered(c, p, runs, others);
      IdsOrderFree(runs, others);
    }
    if Corresponds(c, p, others) { CorrespondsReordered(c, p, others, runs); }
  }
}
