/** The runner's execution contract and the path layout its validation guarantees. */
module RunnerSpecs {
  import opened Order
  import opened Paths
  import opened Contract

  const RUNNER_SPEC := "dhnt.runner-spec/v1"

  datatype RunnerArtifact = RunnerArtifact(name: string, kind: string, digestAlgorithm: string, sha256: string,
                                           path: string)

  datatype RunnerSpec = RunnerSpec(
    schema: string, pipeline: string, task: string, source: Source, argv: seq<string>, workingDirectory: string,
    environment: seq<Environment>, inputs: seq<RunnerArtifact>, outputs: seq<RunnerArtifact>,
    evidenceDirectory: string, commitManifestPath: string, nonzeroClass: string, platform: Platform)

  function Portable(a: RunnerArtifact): Artifact { Artifact(a.name, a.kind, a.digestAlgorithm, a.sha256) }
  function RunnerName(a: RunnerArtifact): string { a.name }
  function RunnerPath(a: RunnerArtifact): string { a.path }

  function SpecTask(spec: RunnerSpec): Task {
    Task(spec.task, "cluster", "single", [], spec.argv, spec.workingDirectory, spec.environment, None, "")
  }

  predicate KindOk(a: RunnerArtifact) {
    (a.kind == FILE && a.digestAlgorithm == FILE_DIGEST) || (a.kind == TREE && a.digestAlgorithm == TREE_DIGEST)
  }

  /** path.Base on a clean path: the last segment. */
  function Base(path: string): string { var s := Split(path); s[|s| - 1] }

  predicate RunnerArtifactOk(a: RunnerArtifact, output: bool) {
    KindOk(a) && CleanRelative(a.path) && !Reserved(a.path) && (output ==> Base(a.path) == a.sha256)
  }

  ghost predicate SideOk(s: seq<RunnerArtifact>, output: bool) {
    s != [] && (forall a :: a in s ==> RunnerArtifactOk(a, output)) && Distinct(s, RunnerName) &&
    ValidArtifacts(Map(Portable, s), RUN_V2)
  }

  /** No two artifacts share a path, and none uses a path already taken. */
  ghost predicate FreshPaths(s: seq<RunnerArtifact>, taken: set<string>) {
    Distinct(s, RunnerPath) && KeySet(s, RunnerPath) !! taken
  }

  ghost predicate HeaderOk(spec: RunnerSpec) {
    spec.schema == RUNNER_SPEC && ValidId(spec.pipeline) && ValidSource(spec.source) && ValidTask(SpecTask(spec)) &&
    (forall e :: e in spec.environment ==> OpenVariable(e)) &&
    spec.platform.backend == "k3s" && spec.platform.os == "linux" && ValidPlatform(spec.platform) &&
    (spec.nonzeroClass == TEST_FAIL || spec.nonzeroClass == INFRA_FAIL) &&
    CleanRelative(spec.evidenceDirectory) && CleanRelative(spec.commitManifestPath) &&
    !Reserved(spec.evidenceDirectory) && !Reserved(spec.commitManifestPath) &&
    spec.evidenceDirectory != spec.commitManifestPath
  }

  function RuntimePaths(spec: RunnerSpec): set<string> { {spec.evidenceDirectory, spec.commitManifestPath} }

  ghost predicate ValidSpec(spec: RunnerSpec) {
    HeaderOk(spec) && SideOk(spec.inputs, false) && SideOk(spec.outputs, true) &&
    FreshPaths(spec.inputs, RuntimePaths(spec)) &&
    FreshPaths(spec.outputs, RuntimePaths(spec) + KeySet(spec.inputs, RunnerPath)) &&
    AliasFree(RuntimePaths(spec) + KeySet(spec.inputs, RunnerPath) + KeySet(spec.outputs, RunnerPath))
  }

  // ----- RunnerSpec.Validate -----

  method CheckHeader(spec: RunnerSpec) returns (ok: bool)
    ensures ok <==> HeaderOk(spec)
  {
    if spec.schema != RUNNER_SPEC || !ValidId(spec.pipeline) || !ValidSource(spec.source) { return false; }
    ok := ValidateTask(SpecTask(spec));
    if !ok || !(forall e :: e in spec.environment ==> OpenVariable(e)) { return false; }
    if spec.platform.backend != "k3s" || spec.platform.os != "linux" || !ValidPlatform(spec.platform) { return false; }
    if spec.nonzeroClass != TEST_FAIL && spec.nonzeroClass != INFRA_FAIL { return false; }
    if !CleanRelative(spec.evidenceDirectory) || !CleanRelative(spec.commitManifestPath) { return false; }
    if Reserved(spec.evidenceDirectory) || Reserved(spec.commitManifestPath) { return false; }
    return spec.evidenceDirectory != spec.commitManifestPath;
  }

  method ValidateSide(s: seq<RunnerArtifact>, output: bool, taken: map<string, string>)
    returns (ok: bool, paths: map<string, string>)
    ensures ok <==> SideOk(s, output) && FreshPaths(s, taken.Keys)
    ensures ok ==> paths.Keys == taken.Keys + KeySet(s, RunnerPath)
  {
    hide RunnerArtifactOk, ValidArtifacts, Distinct, KeySet;
    paths := taken;
    NothingFresh(taken.Keys);
    if s == [] { return false, paths; }
    var names: set<string>, portable: seq<Artifact> := {}, [];
    for i := 0 to |s|
      invariant names == KeySet(s[..i], RunnerName) && Distinct(s[..i], RunnerName)
      invariant paths.Keys == taken.Keys + KeySet(s[..i], RunnerPath) && FreshPaths(s[..i], taken.Keys)
      invariant portable == Map(Portable, s[..i])
      invariant forall k :: 0 <= k < i ==> RunnerArtifactOk(s[k], output)
    {
      var a := s[i];
      assert s[..i + 1] == s[..i] + [a];
      KeySetSnoc(s[..i], a, RunnerName);
      DistinctSnoc(s[..i], a, RunnerName);
      KeySetSnoc(s[..i], a, RunnerPath);
      DistinctSnoc(s[..i], a, RunnerPath);
      if a.name in names || !RunnerArtifactOk(a, output) || a.path in paths {
        TooFar(s, output, taken.Keys, i + 1);
        return false, paths;
      }
      names, portable, paths := names + {a.name}, portable + [Portable(a)], paths[a.path := a.name];
    }
    assert s[..|s|] == s;
    ok := ValidateArtifacts(portable, true, RUN_V2);
  }

  lemma NothingFresh(taken: set<string>)
    ensures Distinct([], RunnerName) && FreshPaths([], taken) && KeySet([], RunnerName) == {} == KeySet([], RunnerPath)
  {
  }

  lemma TooFar(s: seq<RunnerArtifact>, output: bool, taken: set<string>, n: nat)
    requires n <= |s|
    ensures SideOk(s, output) && FreshPaths(s, taken) ==>
            Distinct(s[..n], RunnerName) && FreshPaths(s[..n], taken) &&
            forall k :: 0 <= k < n ==> RunnerArtifactOk(s[k], output)
  {
    forall x | x in KeySet(s[..n], RunnerPath) ensures x in KeySet(s, RunnerPath) {
      var i :| 0 <= i < n && RunnerPath(s[..n][i]) == x;
      assert RunnerPath(s[i]) == x;
    }
  }

  method Validate(spec: RunnerSpec) returns (ok: bool)
    ensures ok <==> ValidSpec(spec)
  {
    ok := CheckHeader(spec);
    if !ok { return; }
    var paths := map[spec.evidenceDirectory := "evidence directory", spec.commitManifestPath := "commit manifest"];
    assert paths.Keys == RuntimePaths(spec);
    ok, paths := ValidateSide(spec.inputs, false, paths);
    if !ok { return; }
    ok, paths := ValidateSide(spec.outputs, true, paths);
    if !ok { return; }
    ok := RejectPathAliases(paths);
  }

  // ----- what validation guarantees about paths -----

  /** Every path of the spec except the evidence directory. */
  function ArtifactPaths(spec: RunnerSpec): set<string> {
    KeySet(spec.inputs, RunnerPath) + KeySet(spec.outputs, RunnerPath) + {spec.commitManifestPath}
  }

  /** All spec paths lie beside one another and beside the staging directory. */
  ghost predicate Layout(spec: RunnerSpec) {
    (forall p, q ::
     p in ArtifactPaths(spec) + {spec.evidenceDirectory} && q in ArtifactPaths(spec) + {spec.evidenceDirectory} &&
     p != q ==>
      Apart(Split(p), Split(q))) &&
    (forall p :: p in ArtifactPaths(spec) + {spec.evidenceDirectory} ==> Apart(Split(p), [STAGING])) &&
    (forall i, j :: 0 <= i < j < |spec.outputs| ==> spec.outputs[i].path != spec.outputs[j].path) &&
    (forall a :: a in spec.outputs ==>
     a.path != spec.commitManifestPath && a.path !in KeySet(spec.inputs, RunnerPath)) &&
    spec.commitManifestPath !in KeySet(spec.inputs, RunnerPath) && spec.evidenceDirectory !in ArtifactPaths(spec)
  }

  lemma AllClean(spec: RunnerSpec, p: string)
    requires ValidSpec(spec) && p in ArtifactPaths(spec) + {spec.evidenceDirectory}
    ensures CleanRelative(p) && !Reserved(p)
  {
    hide KeySet, Distinct, CleanRelative, Reserved, ValidArtifacts, AliasFree, ValidTask;
    if p in KeySet(spec.inputs, RunnerPath) {
      var a := KeyFrom(spec.inputs, p, RunnerPath);
      assert RunnerArtifactOk(a, false);
    } else if p in KeySet(spec.outputs, RunnerPath) {
      var a := KeyFrom(spec.outputs, p, RunnerPath);
      assert RunnerArtifactOk(a, true);
    }
  }

  lemma BesideStaging(p: string)
    requires !Reserved(p)
    ensures Apart(Split(p), [STAGING])
  {
    ReservedIffPrefix(p);
    assert Split(p) <= [STAGING] ==> Split(p) == [STAGING];
  }

  lemma AllApart(spec: RunnerSpec, p: string, q: string)
    requires ValidSpec(spec) && p in ArtifactPaths(spec) + {spec.evidenceDirectory}
    requires q in ArtifactPaths(spec) + {spec.evidenceDirectory} && p != q
    ensures Apart(Split(p), Split(q))
  {
    AllClean(spec, p);
    AllClean(spec, q);
    WithinIffPrefix(p, q);
    WithinIffPrefix(q, p);
    hide KeySet, CleanRelative, SideOk, FreshPaths, HeaderOk, PathWithin, Split;
    var all := RuntimePaths(spec) + KeySet(spec.inputs, RunnerPath) + KeySet(spec.outputs, RunnerPath);
    assert p in all && q in all;
  }

  lemma OwnPaths(spec: RunnerSpec)
    requires ValidSpec(spec)
    ensures forall i, j :: 0 <= i < j < |spec.outputs| ==> spec.outputs[i].path != spec.outputs[j].path
    ensures forall a :: a in spec.outputs ==>
      a.path != spec.commitManifestPath && a.path !in KeySet(spec.inputs, RunnerPath)
    ensures spec.commitManifestPath !in KeySet(spec.inputs, RunnerPath)
    ensures spec.evidenceDirectory !in ArtifactPaths(spec)
  {
    hide KeySet, SideOk, AliasFree, ValidTask, CleanRelative, Reserved;
    forall i, j | 0 <= i < j < |spec.outputs| ensures spec.outputs[i].path != spec.outputs[j].path {
      assert RunnerPath(spec.outputs[i]) != RunnerPath(spec.outputs[j]);
    }
    forall a | a in spec.outputs ensures a.path in KeySet(spec.outputs, RunnerPath) {
      KeyIn(spec.outputs, a, RunnerPath);
    }
  }

  /** A valid spec keeps its paths apart from each other and from staging. */
  lemma ValidLayout(spec: RunnerSpec)
    requires ValidSpec(spec)
    ensures Layout(spec)
  {
    hide ValidSpec, KeySet, Split, ArtifactPaths;
    var all := ArtifactPaths(spec) + {spec.evidenceDirectory};
    forall p | p in all ensures Apart(Split(p), [STAGING]) {
      AllClean(spec, p);
      BesideStaging(p);
    }
    forall p, q | p in all && q in all && p != q ensures Apart(Split(p), Split(q)) { AllApart(spec, p, q); }
    OwnPaths(spec);
  }
}
