/** The environment a task's command starts with. */
module ChildEnvironment {
  import opened Order
  import opened Paths
  import opened Contract
  import opened RunnerSpecs

  function Upper(c: char): char {
    if 'a' <= c <= 'z' then (c as int - 32) as char else c
  }

  function EnvChar(c: char): char {
    var u := Upper(c);
    if 'A' <= u <= 'Z' || '0' <= u <= '9' then u else '_'
  }

  /** artifactEnvName, on ASCII. */
  function EnvName(name: string): string { seq(|name|, i requires 0 <= i < |name| => EnvChar(name[i])) }

  const INPUT := "DHNT_INPUT_"
  const OUTPUT := "DHNT_OUTPUT_"

  function NameInEnv(a: RunnerArtifact): string { EnvName(a.name) }

  /** No two artifacts of one direction share an environment name. */
  ghost predicate NamesApart(spec: RunnerSpec) {
    Distinct(spec.inputs, NameInEnv) && Distinct(spec.outputs, NameInEnv)
  }

  // ----- valid specs that can never pass -----

  function FileAt(name: string, digest: string, path: string): RunnerArtifact {
    RunnerArtifact(name, FILE, FILE_DIGEST, digest, path)
  }

  /** Two file inputs at a and b, and a command that runs in wd. */
  function SmallSpec(digest: string, first: string, second: string, wd: string): RunnerSpec {
    RunnerSpec(RUNNER_SPEC, "p", "t", Source("r", "c", digest), ["run"], wd, [],
               [FileAt(first, digest, "a"), FileAt(second, digest, "b")], [FileAt("out", digest, digest)],
               "e", "m", TEST_FAIL, Platform("k3s", "linux", "amd64"))
  }

  /** A path of one plain segment is clean and reserved only as the staging directory itself. */
  lemma OneSegment(p: string)
    requires Plain(p) && p != STAGING && forall c :: c in p ==> c !in "/\\\0"
    ensures CleanRelative(p) && !Reserved(p) && Base(p) == p
  {
    SplitWhole(p);
    CleanRelativeExact(p);
    ReservedIffPrefix(p);
  }

  lemma SegmentsApart(names: set<string>)
    requires forall p :: p in names ==> '/' !in p
    ensures AliasFree(names)
  {
    forall p, q | p in names && q in names && p != q ensures !PathWithin(p, q) {
      assert (p + "/")[|p|] == '/';
    }
  }

  lemma SeatIsClean(wd: string)
    requires wd == "." || wd == "a"
    ensures ValidWorkingDirectory(wd)
  {
    if wd == "." {
      SplitWhole(".");
      assert Resolve(["."], false, []) == [];
    } else {
      OneSegment("a");
      hide Clean;
    }
  }

  lemma PlainTask(t: Task)
    requires ValidId(t.id) && t.lane == "cluster" && t.distribution == "single" && t.argv == ["run"]
    requires ValidWorkingDirectory(t.workingDirectory)
    requires t.needs == [] && t.environment == []
    ensures ValidTask(t)
  {
    hide ValidWorkingDirectory, ValidId;
  }

  lemma PlainSource(s: Source)
    requires s.repository == "r" && s.commit == "c" && ValidDigest(s.sha256)
    ensures ValidSource(s)
  {
    hide ValidDigest;
    assert s.repository[0] in s.repository && s.commit[0] in s.commit;
  }

  lemma NamesValid()
    ensures forall n :: n in {"p", "t", "log.txt", "log-TXT", "out"} ==> ValidId(n)
  {
  }

  /** One plain segment, as a path. */
  predicate Segment(p: string) { Plain(p) && p != STAGING && forall c :: c in p ==> c !in "/\\\0" }

  predicate PlainFile(a: RunnerArtifact, output: bool) {
    a.kind == FILE && a.digestAlgorithm == FILE_DIGEST && ValidId(a.name) && ValidDigest(a.sha256) && Segment(a.path) &&
    (output ==> a.path == a.sha256)
  }

  ghost predicate PlainHeader(s: RunnerSpec) {
    s.schema == RUNNER_SPEC && ValidId(s.pipeline) && ValidId(s.task) && s.source.repository == "r" &&
    s.source.commit == "c" &&
    ValidDigest(s.source.sha256) && s.argv == ["run"] && ValidWorkingDirectory(s.workingDirectory) &&
    s.environment == [] &&
    s.platform == Platform("k3s", "linux", "amd64") && s.nonzeroClass == TEST_FAIL &&
    Segment(s.evidenceDirectory) && Segment(s.commitManifestPath) && s.evidenceDirectory != s.commitManifestPath
  }

  ghost predicate PlainSides(s: RunnerSpec) {
    s.inputs != [] && s.outputs != [] && Distinct(s.inputs, RunnerName) && Distinct(s.outputs, RunnerName) &&
    (forall a :: a in s.inputs ==> PlainFile(a, false)) && (forall a :: a in s.outputs ==> PlainFile(a, true)) &&
    Distinct(s.inputs + s.outputs, RunnerPath) && RuntimePaths(s) !! KeySet(s.inputs + s.outputs, RunnerPath)
  }

  lemma PlainHeaderOk(s: RunnerSpec)
    requires PlainHeader(s)
    ensures HeaderOk(s)
  {
    hide CleanRelative, Reserved, ValidTask, ValidSource, ValidId, ValidDigest, ValidWorkingDirectory;
    OneSegment(s.evidenceDirectory);
    OneSegment(s.commitManifestPath);
    PlainSource(s.source);
    PlainTask(SpecTask(s));
  }

  lemma SideOfFiles(s: seq<RunnerArtifact>, output: bool)
    requires s != [] && Distinct(s, RunnerName) && forall a :: a in s ==> PlainFile(a, output)
    ensures SideOk(s, output)
  {
    hide CleanRelative, Reserved, Base, ValidDigest, ValidId, Segment;
    MapDistinct(Portable, s, RunnerName, ArtifactName);
    var portable := Map(Portable, s);
    forall p | p in portable ensures ValidArtifact(p, RUN_V2) {
      var i :| 0 <= i < |portable| && portable[i] == p;
      assert s[i] in s;
    }
    forall a | a in s ensures RunnerArtifactOk(a, output) { SegmentClean(a.path); }
  }

  lemma SegmentClean(p: string)
    requires Segment(p)
    ensures CleanRelative(p) && !Reserved(p) && Base(p) == p
  {
    OneSegment(p);
  }

  lemma PlainPaths(s: RunnerSpec)
    requires PlainHeader(s) && PlainSides(s)
    ensures FreshPaths(s.inputs, RuntimePaths(s))
    ensures FreshPaths(s.outputs, RuntimePaths(s) + KeySet(s.inputs, RunnerPath))
    ensures AliasFree(RuntimePaths(s) + KeySet(s.inputs, RunnerPath) + KeySet(s.outputs, RunnerPath))
  {
    hide KeySet, Distinct, ValidId, ValidDigest, Plain;
    KeySetConcat(s.inputs, s.outputs, RunnerPath);
    DistinctConcat(s.inputs, s.outputs, RunnerPath);
    var all := RuntimePaths(s) + KeySet(s.inputs, RunnerPath) + KeySet(s.outputs, RunnerPath);
    forall p | p in all ensures '/' !in p {
      if p in KeySet(s.inputs, RunnerPath) { var a := KeyFrom(s.inputs, p, RunnerPath); }
      if p in KeySet(s.outputs, RunnerPath) { var a := KeyFrom(s.outputs, p, RunnerPath); }
    }
    SegmentsApart(all);
  }

  /** Plain parts make a valid spec. */
  lemma PlainSpecValid(s: RunnerSpec)
    requires PlainHeader(s) && PlainSides(s)
    ensures ValidSpec(s)
  {
    PlainHeaderOk(s);
    PlainPaths(s);
    hide HeaderOk, PlainHeader, PlainFile, FreshPaths, AliasFree, KeySet, RuntimePaths, SideOk, Distinct;
    SideOfFiles(s.inputs, false);
    SideOfFiles(s.outputs, true);
  }

  lemma SmallValid(digest: string, first: string, second: string, wd: string)
    requires ValidDigest(digest) && ValidId(first) && ValidId(second) && first != second && (wd == "." || wd == "a")
    ensures ValidSpec(SmallSpec(digest, first, second, wd))
  {
    hide ValidDigest, ValidId, ValidSpec, ValidWorkingDirectory;
    var s := SmallSpec(digest, first, second, wd);
    NamesValid();
    SeatIsClean(wd);
    DigestSegment(digest);
    assert |digest| == 64 by { DigestSegment(digest); }
    var all := s.inputs + s.outputs;
    assert KeySet(all, RunnerPath) == {"a", "b", digest} by {
      assert all[0].path == "a" && all[1].path == "b" && all[2].path == digest;
    }
    PlainSpecValid(s);
  }

  lemma DigestSegment(digest: string)
    requires ValidDigest(digest)
    ensures |digest| == 64 && Segment(digest)
  {
  }

  lemma SomeDigest() returns (digest: string)
    ensures ValidDigest(digest)
  {
    digest := seq(64, i => '0');
  }

  lemma CollidingNames(digest: string)
    ensures !NamesApart(SmallSpec(digest, "log.txt", "log-TXT", "."))
  {
    var inputs := SmallSpec(digest, "log.txt", "log-TXT", ".").inputs;
    assert EnvName("log.txt") == EnvName("log-TXT");
    assert NameInEnv(inputs[0]) == NameInEnv(inputs[1]);
  }

  /** Validation accepts a spec with two input names that differ only in punctuation and case, and the
      child's variables collide. */
  lemma NamesCollide() returns (spec: RunnerSpec)
    ensures ValidSpec(spec) && !NamesApart(spec)
  {
    hide ValidSpec, NamesApart, SmallSpec, ValidId, ValidDigest;
    var digest := SomeDigest();
    NamesValid();
    SmallValid(digest, "log.txt", "log-TXT", ".");
    CollidingNames(digest);
    spec := SmallSpec(digest, "log.txt", "log-TXT", ".");
  }

  lemma NamesDiffer(digest: string)
    ensures NamesApart(SmallSpec(digest, "p", "t", "a"))
  {
    var inputs := SmallSpec(digest, "p", "t", "a").inputs;
    assert EnvName("p")[0] == 'P' && EnvName("t")[0] == 'T';
    assert NameInEnv(inputs[0]) != NameInEnv(inputs[1]);
  }

  /** Validation accepts a spec whose working directory is one of its file inputs. */
  lemma SeatIsInput() returns (spec: RunnerSpec)
    ensures ValidSpec(spec) && NamesApart(spec)
    ensures spec.inputs != [] && spec.inputs[0].kind == FILE && spec.inputs[0].path == spec.workingDirectory == "a"
  {
    hide ValidSpec, NamesApart, ValidId, ValidDigest;
    var digest := SomeDigest();
    NamesValid();
    SmallValid(digest, "p", "t", "a");
    NamesDiffer(digest);
    spec := SmallSpec(digest, "p", "t", "a");
  }

  function Fixed(spec: RunnerSpec, home: string, tmp: string, path: string): map<string, string> {
    map["HOME" := home, "PATH" := path, "TMPDIR" := tmp, "DHNT_PIPELINE" := spec.pipeline,
        "DHNT_SOURCE_COMMIT" := spec.source.commit, "DHNT_SOURCE_SHA256" := spec.source.sha256, "DHNT_TASK" :=
          spec.task]
  }

  /** Every artifact of one direction finds its own path and digest under its own name. */
  ghost predicate Bound(values: map<string, string>, direction: string, s: seq<RunnerArtifact>,
                        paths: map<string, string>) {
    forall a :: a in s ==>
      direction + NameInEnv(a) + "_PATH" in values && direction + NameInEnv(a) + "_SHA256" in values &&
      a.name in paths && values[direction + NameInEnv(a) + "_PATH"] == paths[a.name] &&
      values[direction + NameInEnv(a) + "_SHA256"] == a.sha256
  }

  /** Where the fixed and declared variables end up: a declared one may override HOME, PATH or TMPDIR. */
  ghost predicate Kept(values: map<string, string>, spec: RunnerSpec, fixed: map<string, string>) {
    (forall e :: e in spec.environment ==> e.name in values && values[e.name] == e.value) &&
    forall n :: n in fixed && n !in KeySet(spec.environment, EnvironmentName) ==> n in values && values[n] == fixed[n]
  }

  lemma SlotApart(direction: string, base: string, other: string)
    requires base != other
    ensures direction + base + "_PATH" != direction + other + "_PATH"
    ensures direction + base + "_SHA256" != direction + other + "_SHA256"
    ensures direction + base + "_PATH" != direction + other + "_SHA256"
  {
    var d := |direction|;
    var a, b := direction + base + "_PATH", direction + other + "_PATH";
    assert a[d..|a| - 5] == base && b[d..|b| - 5] == other;
    var x, y := direction + base + "_SHA256", direction + other + "_SHA256";
    assert x[d..|x| - 7] == base && y[d..|y| - 7] == other;
    assert a[|a| - 1] == 'H' && y[|y| - 1] == '6';
  }

  lemma DirectionsApart(n: string)
    ensures !(INPUT <= n && OUTPUT <= n)
  {
    assert INPUT[5] != OUTPUT[5];
  }

  /** One direction of the artifact loop. */
  method BindArtifacts(direction: string, s: seq<RunnerArtifact>, paths: map<string, string>,
                       before: map<string, string>)
    returns (ok: bool, values: map<string, string>)
    requires forall a :: a in s ==> a.name in paths
    ensures ok <==> Distinct(s, NameInEnv)
    ensures ok ==> Bound(values, direction, s, paths)
    ensures forall n :: n in before && !(direction <= n) ==> n in values && values[n] == before[n]
  {
    values := before;
    var used: set<string> := {};
    for i := 0 to |s|
      invariant used == KeySet(s[..i], NameInEnv) && Distinct(s[..i], NameInEnv)
      invariant Bound(values, direction, s[..i], paths)
      invariant forall n :: n in before && !(direction <= n) ==> n in values && values[n] == before[n]
    {
      var a := s[i];
      var base := NameInEnv(a);
      assert s[..i + 1] == s[..i] + [a];
      KeySetSnoc(s[..i], a, NameInEnv);
      DistinctSnoc(s[..i], a, NameInEnv);
      if base in used {
        if Distinct(s, NameInEnv) { DistinctPrefix(s, i + 1, NameInEnv); }
        return false, values;
      }
      forall b | b in s[..i] ensures NameInEnv(b) != base {
        var k :| 0 <= k < i && s[k] == b;
        assert NameInEnv(s[..i][k]) in used;
      }
      values := Bind(values, direction, a, paths, s[..i]);
      used := used + {base};
    }
    assert s[..|s|] == s;
    return true, values;
  }

  method Bind(before: map<string, string>, direction: string, a: RunnerArtifact, paths: map<string, string>,
              ghost bound: seq<RunnerArtifact>)
    returns (values: map<string, string>)
    requires a.name in paths && Bound(before, direction, bound, paths)
    requires forall b :: b in bound ==> NameInEnv(b) != NameInEnv(a)
    ensures Bound(values, direction, bound + [a], paths)
    ensures forall n :: n in before && !(direction <= n) ==> n in values && values[n] == before[n]
  {
    var base := NameInEnv(a);
    var p, d := direction + base + "_PATH", direction + base + "_SHA256";
    assert direction <= p && direction <= d && p[|p| - 1] != d[|d| - 1];
    values := before[p := paths[a.name]];
    values := values[d := a.sha256];
    forall b | b in bound
      ensures direction + NameInEnv(b) + "_PATH" !in {p, d} && direction + NameInEnv(b) + "_SHA256" !in {p, d}
    {
      SlotApart(direction, NameInEnv(b), base);
      SlotApart(direction, base, NameInEnv(b));
    }
  }

  /** runnerChildEnvironment: it fails exactly when two artifacts of one direction collide, and
      otherwise no variable clobbers another: each artifact reads its own path and digest, each
      declared variable its declared value, and the rest of the fixed ones their own. */
  method ChildVariables(spec: RunnerSpec, home: string, tmp: string, path: string,
                        inputPaths: map<string, string>, outputPaths: map<string, string>)
    returns (ok: bool, values: map<string, string>)
    requires Distinct(spec.environment, EnvironmentName) && forall e :: e in spec.environment ==> OpenVariable(e)
    requires forall a :: a in spec.inputs ==> a.name in inputPaths
    requires forall a :: a in spec.outputs ==> a.name in outputPaths
    ensures ok <==> NamesApart(spec)
    ensures ok ==> Bound(values, INPUT, spec.inputs, inputPaths) && Bound(values, OUTPUT, spec.outputs, outputPaths)
    ensures ok ==> Kept(values, spec, Fixed(spec, home, tmp, path))
  {
    var fixed := Fixed(spec, home, tmp, path);
    values := Declared(spec, fixed);
    ghost var declared := values;
    ok, values := BindArtifacts(INPUT, spec.inputs, inputPaths, values);
    if !ok { return; }
    ghost var bound := values;
    ok, values := BindArtifacts(OUTPUT, spec.outputs, outputPaths, values);
    if !ok { return; }
    KeptThroughout(declared, bound, values, spec, fixed);
    InputsKept(bound, values, spec, inputPaths);
  }

  method Declared(spec: RunnerSpec, fixed: map<string, string>) returns (values: map<string, string>)
    requires Distinct(spec.environment, EnvironmentName)
    ensures Kept(values, spec, fixed)
  {
    values := fixed;
    var env := spec.environment;
    for i := 0 to |env|
      invariant forall k :: 0 <= k < i ==> env[k].name in values && values[env[k].name] == env[k].value
      invariant forall n :: n in fixed && n !in KeySet(env[..i], EnvironmentName) ==>
        n in values && values[n] == fixed[n]
    {
      assert env[..i + 1] == env[..i] + [env[i]];
      KeySetSnoc(env[..i], env[i], EnvironmentName);
      forall k | 0 <= k < i ensures env[k].name != env[i].name {
        assert EnvironmentName(env[k]) != EnvironmentName(env[i]);
      }
      values := values[env[i].name := env[i].value];
    }
    assert env[..|env|] == env;
  }

  lemma NotArtifact(n: string)
    requires !("DHNT_" <= n) ||
             n in {"HOME", "PATH", "TMPDIR", "DHNT_PIPELINE", "DHNT_SOURCE_COMMIT", "DHNT_SOURCE_SHA256", "DHNT_TASK"}
    ensures !(INPUT <= n) && !(OUTPUT <= n)
  {
    assert "DHNT_" <= INPUT && "DHNT_" <= OUTPUT;
    assert "HOME"[0] != 'D' && "PATH"[0] != 'D' && "TMPDIR"[0] != 'D';
    assert "DHNT_PIPELINE"[5] != 'I' && "DHNT_SOURCE_COMMIT"[5] != 'I' && "DHNT_SOURCE_SHA256"[5] != 'I' &&
      "DHNT_TASK"[5] != 'I';
    assert "DHNT_PIPELINE"[5] != 'O' && "DHNT_SOURCE_COMMIT"[5] != 'O' && "DHNT_SOURCE_SHA256"[5] != 'O' &&
      "DHNT_TASK"[5] != 'O';
    assert INPUT[5] == 'I' && OUTPUT[5] == 'O' && INPUT[0] == 'D' && OUTPUT[0] == 'D';
  }

  lemma KeptThroughout(declared: map<string, string>, bound: map<string, string>, values: map<string, string>,
                       spec: RunnerSpec, fixed: map<string, string>)
    requires Kept(declared, spec, fixed)
    requires fixed.Keys == {"HOME", "PATH", "TMPDIR", "DHNT_PIPELINE", "DHNT_SOURCE_COMMIT", "DHNT_SOURCE_SHA256",
        "DHNT_TASK"}
    requires forall e :: e in spec.environment ==> OpenVariable(e)
    requires forall n :: n in declared && !(INPUT <= n) ==> n in bound && bound[n] == declared[n]
    requires forall n :: n in bound && !(OUTPUT <= n) ==> n in values && values[n] == bound[n]
    ensures Kept(values, spec, fixed)
  {
    forall e | e in spec.environment ensures e.name in values && values[e.name] == e.value { NotArtifact(e.name); }
    forall n | n in fixed && n !in KeySet(spec.environment, EnvironmentName)
      ensures n in values && values[n] == fixed[n]
    {
      NotArtifact(n);
    }
  }

  lemma InputsKept(bound: map<string, string>, values: map<string, string>, spec: RunnerSpec,
                   paths: map<string, string>)
    requires Bound(bound, INPUT, spec.inputs, paths)
    requires forall n :: n in bound && !(OUTPUT <= n) ==> n in values && values[n] == bound[n]
    ensures Bound(values, INPUT, spec.inputs, paths)
  {
    forall a | a in spec.inputs
      ensures !(OUTPUT <= INPUT + NameInEnv(a) + "_PATH") && !(OUTPUT <= INPUT + NameInEnv(a) + "_SHA256")
    {
      var p, d := INPUT + NameInEnv(a) + "_PATH", INPUT + NameInEnv(a) + "_SHA256";
      assert INPUT <= p && INPUT <= d;
      DirectionsApart(p);
      DirectionsApart(d);
    }
  }
}
