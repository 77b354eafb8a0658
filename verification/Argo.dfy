/** The v2 Argo lowerer: a pipeline and a binding become one workflow, or nothing. */
module Argo {
  import opened Order
  import opened Paths
  import opened Contract
  import opened Pipelines
  import opened Canonical
  import opened RunnerSpecs

  const ENTRY := "pipeline"

  datatype ArtifactPath = ArtifactPath(name: string, path: string)

  datatype TaskBinding = TaskBinding(
    id: string, image: string, runnerPath: string, artifacts: seq<ArtifactPath>, evidenceDirectory: string,
    commitManifestPath: string, nonzeroClass: string, timeoutSeconds: int, retryLimit: int)

  datatype Storage = Storage(claimName: string, emptyDir: bool, mountPath: string)

  datatype Binding = Binding(workspace: Storage, tasks: seq<TaskBinding>)

  function BindingId(b: TaskBinding): string { b.id }
  function PathName(a: ArtifactPath): string { a.name }

  /** The JSON and base64 encoders, as parameters. */
  datatype Encoders = Encoders(spec: RunnerSpec -> string, base64: string -> string)

  datatype DagTask = DagTask(name: string, template: string, dependencies: seq<string>)

  datatype Template =
    | Dag(name: string, tasks: seq<DagTask>)
    | Container(name: string, distribution: string, arch: string, image: string, command: string, args: seq<string>,
                workingDir: string, mountPath: string, timeoutSeconds: int, retryLimit: int)

  datatype Workflow = Workflow(
    generateName: string, pipeline: string, sourceCommit: string, sourceSha256: string, entrypoint: string,
    workspace: Storage, templates: seq<Template>)

  // ----- what a binding says about a task, whatever order it says it in -----

  datatype Facts = Facts(
    image: string, runnerPath: string, paths: map<string, ArtifactPath>, evidenceDirectory: string,
    commitManifestPath: string, nonzeroClass: string, timeoutSeconds: int, retryLimit: int)

  function FactsOf(b: TaskBinding): Facts {
    Facts(b.image, b.runnerPath, IndexBy(b.artifacts, PathName), b.evidenceDirectory, b.commitManifestPath,
          b.nonzeroClass,
          b.timeoutSeconds, b.retryLimit)
  }

  function Table(b: Binding): map<string, Facts> {
    map id | id in IndexBy(b.tasks, BindingId) :: FactsOf(IndexBy(b.tasks, BindingId)[id])
  }

  /** The parts of ArgoBinding.Validate that lowering relies on. */
  ghost predicate WellBound(b: Binding) {
    Distinct(b.tasks, BindingId) && forall t :: t in b.tasks ==> Distinct(t.artifacts, PathName)
  }

  // ----- runner specs -----

  function Locate(paths: map<string, ArtifactPath>, a: Artifact): RunnerArtifact {
    RunnerArtifact(a.name, a.kind, a.digestAlgorithm, a.sha256, if a.name in paths then paths[a.name].path else "")
  }

  function Located(paths: map<string, ArtifactPath>, s: seq<Artifact>): (r: seq<RunnerArtifact>)
    ensures |r| == |s| && forall i :: 0 <= i < |s| ==> r[i] == Locate(paths, s[i])
  {
    seq(|s|, i requires 0 <= i < |s| => Locate(paths, s[i]))
  }

  function SpecOf(p: Pipeline, t: Task, row: MatrixEntry, f: Facts): RunnerSpec {
    RunnerSpec(RUNNER_SPEC, p.pipeline, t.id, p.source, t.argv, t.workingDirectory, t.environment,
               Located(f.paths, row.inputs), Located(f.paths, row.outputs), f.evidenceDirectory, f.commitManifestPath,
               f.nonzeroClass, row.platform)
  }

  /** The binding names exactly the artifacts of the row, and none is both input and output. */
  ghost predicate BindsExactly(row: MatrixEntry, f: Facts) {
    var inputs, outputs := KeySet(row.inputs, ArtifactName), KeySet(row.outputs, ArtifactName);
    inputs !! outputs && f.paths.Keys == inputs + outputs
  }

  ghost predicate NamedOnce(row: MatrixEntry) {
    Distinct(row.inputs, ArtifactName) && Distinct(row.outputs, ArtifactName)
  }

  /** One direction of runnerSpecForTask's conversion. */
  method Convert(paths: map<string, ArtifactPath>, s: seq<Artifact>, before: set<string>)
    returns (ok: bool, located: seq<RunnerArtifact>, expected: set<string>)
    requires Distinct(s, ArtifactName)
    ensures ok <==> KeySet(s, ArtifactName) <= paths.Keys && KeySet(s, ArtifactName) !! before
    ensures ok ==> located == Located(paths, s) && expected == before + KeySet(s, ArtifactName)
  {
    located, expected := [], before;
    for i := 0 to |s|
      invariant KeySet(s[..i], ArtifactName) <= paths.Keys && KeySet(s[..i], ArtifactName) !! before
      invariant located == Located(paths, s[..i]) && expected == before + KeySet(s[..i], ArtifactName)
    {
      var a := s[i];
      assert s[..i + 1] == s[..i] + [a];
      KeySetSnoc(s[..i], a, ArtifactName);
      DistinctPrefix(s, i + 1, ArtifactName);
      DistinctSnoc(s[..i], a, ArtifactName);
      if a.name !in paths || a.name in expected {
        assert ArtifactName(s[i]) in KeySet(s, ArtifactName);
        return false, located, expected;
      }
      located, expected := located + [Locate(paths, a)], expected + {a.name};
    }
    assert s[..|s|] == s;
    ok := true;
  }

  lemma NamedTwice(row: MatrixEntry)
    requires NamedOnce(row)
    ensures Distinct(row.inputs, ArtifactName) && Distinct(row.outputs, ArtifactName)
  {
  }

  /** runnerSpecForTask. */
  method SpecForTask(p: Pipeline, t: Task, row: MatrixEntry, b: TaskBinding) returns (ok: bool, spec: RunnerSpec)
    requires NamedOnce(row)
    ensures ok <==> BindsExactly(row, FactsOf(b))
    ensures ok ==> spec == SpecOf(p, t, row, FactsOf(b))
  {
    hide NamedOnce, KeySet, IndexBy, Distinct;
    NamedTwice(row);
    var paths := Index(b.artifacts, PathName);
    spec := SpecOf(p, t, row, FactsOf(b));
    var inputs, outputs, expected;
    ok, inputs, expected := Convert(paths, row.inputs, {});
    if !ok { return; }
    ok, outputs, expected := Convert(paths, row.outputs, expected);
    if !ok { return; }
    ok := paths.Keys <= expected && |paths| == |expected|;
    assert paths.Keys == expected ==> |paths| == |expected|;
    spec := RunnerSpec(RUNNER_SPEC, p.pipeline, t.id, p.source, t.argv, t.workingDirectory, t.environment,
                       inputs, outputs, b.evidenceDirectory, b.commitManifestPath, b.nonzeroClass, row.platform);
  }

  function CanonicalSpec(s: RunnerSpec): RunnerSpec {
    s.(environment := SortBy(s.environment, EnvironmentName), inputs := SortBy(s.inputs, RunnerName),
       outputs := SortBy(s.outputs, RunnerName))
  }

  /** MarshalRunnerSpec. */
  method MarshalSpec(e: Encoders, s: RunnerSpec) returns (json: Option<string>)
    ensures json.Some? <==> ValidSpec(s)
    ensures json.Some? ==> json.value == e.spec(CanonicalSpec(s))
  {
    hide ValidSpec;
    var ok := RunnerSpecs.Validate(s);
    if !ok { return None; }
    var c := s.(environment := SortBy(s.environment, EnvironmentName));
    c := c.(inputs := SortBy(c.inputs, RunnerName));
    c := c.(outputs := SortBy(c.outputs, RunnerName));
    return Some(e.spec(c));
  }

  // ----- order does not matter to a spec -----

  ghost predicate SameSpec(s: RunnerSpec, t: RunnerSpec) {
    s.(environment := [], inputs := [], outputs := []) == t.(environment := [], inputs := [], outputs := []) &&
    multiset(s.environment) == multiset(t.environment) && multiset(s.inputs) == multiset(t.inputs) &&
    multiset(s.outputs) == multiset(t.outputs)
  }

  lemma CanonicalSpecSame(s: RunnerSpec)
    ensures SameSpec(s, CanonicalSpec(s)) && SameSpec(CanonicalSpec(s), s)
  {
  }

  lemma SameHeader(s: RunnerSpec, t: RunnerSpec)
    requires SameSpec(s, t) && HeaderOk(s)
    ensures HeaderOk(t)
  {
    hide ValidTaskFields, OpenVariable, ValidSource, ValidPlatform, ValidVariable, CleanRelative, Reserved;
    PermutationMembers(s.environment, t.environment);
    PermutationDistinct(s.environment, t.environment, EnvironmentName);
    assert t.pipeline == s.(environment := [], inputs := [], outputs := []).pipeline;
    assert SpecTask(t) == SpecTask(s).(environment := t.environment);
    SameFields(SpecTask(s), t.environment);
  }

  lemma SameFields(t: Task, environment: seq<Environment>)
    ensures ValidTaskFields(t.(environment := environment)) <==> ValidTaskFields(t)
  {
  }

  lemma SameSide(a: seq<RunnerArtifact>, b: seq<RunnerArtifact>, output: bool)
    requires multiset(a) == multiset(b) && SideOk(a, output)
    ensures SideOk(b, output)
  {
    hide RunnerArtifactOk, ValidArtifact;
    PermutationMembers(a, b);
    PermutationDistinct(a, b, RunnerName);
    MapMultiset(Portable, a, b);
    PermutationMembers(Map(Portable, a), Map(Portable, b));
    PermutationDistinct(Map(Portable, a), Map(Portable, b), ArtifactName);
  }

  lemma SameFreshPaths(a: seq<RunnerArtifact>, b: seq<RunnerArtifact>, taken: set<string>)
    requires multiset(a) == multiset(b) && FreshPaths(a, taken)
    ensures FreshPaths(b, taken) && KeySet(a, RunnerPath) == KeySet(b, RunnerPath)
  {
    PermutationDistinct(a, b, RunnerPath);
    PermutationKeys(a, b, RunnerPath);
  }

  lemma SameRuntime(s: RunnerSpec, t: RunnerSpec)
    requires SameSpec(s, t)
    ensures RuntimePaths(s) == RuntimePaths(t)
  {
    assert s.(environment := [], inputs := [], outputs := []).evidenceDirectory == t.evidenceDirectory;
  }

  /** Validity of a spec does not depend on the order of its lists. */
  lemma SameValid(s: RunnerSpec, t: RunnerSpec)
    requires SameSpec(s, t) && ValidSpec(s)
    ensures ValidSpec(t)
  {
    hide HeaderOk, SideOk, FreshPaths, RuntimePaths, SameSpec, AliasFree;
    SameLists(s, t);
    SameHeader(s, t);
    SameRuntime(s, t);
    SameSide(s.inputs, t.inputs, false);
    SameSide(s.outputs, t.outputs, true);
    SameFreshPaths(s.inputs, t.inputs, RuntimePaths(s));
    SameFreshPaths(s.outputs, t.outputs, RuntimePaths(s) + KeySet(s.inputs, RunnerPath));
  }

  lemma SameLists(s: RunnerSpec, t: RunnerSpec)
    requires SameSpec(s, t)
    ensures multiset(s.inputs) == multiset(t.inputs) && multiset(s.outputs) == multiset(t.outputs)
  {
  }

  lemma LocatedSorted(paths: map<string, ArtifactPath>, s: seq<Artifact>)
    requires Distinct(s, ArtifactName)
    ensures SortBy(Located(paths, s), RunnerName) == Located(paths, SortedArtifacts(s))
  {
    hide SortBy, IndexBy;
    var f := (a: Artifact) => Locate(paths, a);
    assert Located(paths, s) == Map(f, s);
    SortMap(f, s, ArtifactName, RunnerName);
    assert Located(paths, SortedArtifacts(s)) == Map(f, SortBy(s, ArtifactName));
  }

  /** Sorting the spec of a task is building the spec of the sorted task. */
  lemma SpecCommutes(p: Pipeline, t: Task, row: MatrixEntry, f: Facts)
    requires NamedOnce(row)
    ensures CanonicalSpec(SpecOf(p, t, row, f)) == SpecOf(CanonicalForm(p), CanonicalTask(t), CanonicalRow(row), f)
  {
    hide SortBy, Located;
    LocatedSorted(f.paths, row.inputs);
    LocatedSorted(f.paths, row.outputs);
  }

  // ----- path claims across the workflow -----

  /** What has claimed a path: an artifact of this identity, or some task's evidence or manifest. */
  datatype Claim = ByArtifact(identity: Artifact) | ByRuntime

  function AllArtifacts(s: RunnerSpec): seq<RunnerArtifact> { s.inputs + s.outputs }

  function SpecPaths(s: RunnerSpec): set<string> { KeySet(AllArtifacts(s), RunnerPath) + RuntimePaths(s) }

  /** Within one spec: a path has one identity, and runtime paths are their own. */
  ghost predicate Tidy(s: RunnerSpec) {
    (forall a, b :: a in AllArtifacts(s) && b in AllArtifacts(s) && a.path == b.path ==> Portable(a) == Portable(b)) &&
    RuntimePaths(s) !! KeySet(AllArtifacts(s), RunnerPath) && s.evidenceDirectory != s.commitManifestPath
  }

  /** The spec uses this path, in this way. */
  ghost predicate Demands(s: RunnerSpec, p: string, c: Claim) {
    match c
    case ByArtifact(identity) => exists a :: a in AllArtifacts(s) && a.path == p && Portable(a) == identity
    case ByRuntime => p in RuntimePaths(s)
  }

  /** Two tasks share a path only for one and the same artifact. */
  ghost predicate Compatible(s: RunnerSpec, t: RunnerSpec) {
    forall p, c, d :: Demands(s, p, c) && Demands(t, p, d) ==> c == d && c.ByArtifact?
  }

  /** The spec can be added to these claims. */
  ghost predicate Fits(claims: map<string, Claim>, s: RunnerSpec) {
    Tidy(s) && forall p, c :: Demands(s, p, c) && p in claims ==> claims[p] == c && c.ByArtifact?
  }

  /** The claims with the spec's own added. */
  ghost predicate Extends(claims: map<string, Claim>, after: map<string, Claim>, s: RunnerSpec) {
    after.Keys == claims.Keys + SpecPaths(s) && (forall p :: p in claims ==> after[p] == claims[p]) &&
    forall p, c :: Demands(s, p, c) ==> p in after && after[p] == c
  }

  /** Claims made by the first n artifacts. */
  ghost predicate Claimed(claims: map<string, Claim>, after: map<string, Claim>, s: seq<RunnerArtifact>) {
    after.Keys == claims.Keys + KeySet(s, RunnerPath) && (forall p :: p in claims ==> after[p] == claims[p]) &&
    forall a :: a in s ==> a.path in after && after[a.path] == ByArtifact(Portable(a))
  }

  ghost predicate Agree(claims: map<string, Claim>, s: seq<RunnerArtifact>) {
    (forall a :: a in s && a.path in claims ==> claims[a.path] == ByArtifact(Portable(a))) &&
    forall a, b :: a in s && b in s && a.path == b.path ==> Portable(a) == Portable(b)
  }

  lemma ClaimClash(claims: map<string, Claim>, after: map<string, Claim>, s: seq<RunnerArtifact>, a: RunnerArtifact)
    requires Claimed(claims, after, s) && a.path in after && after[a.path] != ByArtifact(Portable(a))
    ensures !Agree(claims, s + [a])
  {
    assert a in s + [a];
    if a.path !in claims {
      var i :| 0 <= i < |s| && RunnerPath(s[i]) == a.path;
      assert s[i] in s && s[i] in s + [a];
    }
  }

  lemma ClaimMore(claims: map<string, Claim>, after: map<string, Claim>, s: seq<RunnerArtifact>, a: RunnerArtifact)
    requires Claimed(claims, after, s) && Agree(claims, s)
    requires (a.path in after ==> after[a.path] == ByArtifact(Portable(a)))
    ensures Claimed(claims, after[a.path := ByArtifact(Portable(a))], s + [a]) && Agree(claims, s + [a])
  {
    KeySetSnoc(s, a, RunnerPath);
    hide KeySet;
    if a.path in claims { assert claims[a.path] == ByArtifact(Portable(a)); }
    forall b | b in s && b.path == a.path ensures Portable(b) == Portable(a) { assert b.path in after; }
    assert forall x :: x in s + [a] <==> x in s || x == a;
  }

  /** The loop over a task's artifacts. */
  method ClaimArtifacts(claims: map<string, Claim>, s: seq<RunnerArtifact>)
    returns (ok: bool, after: map<string, Claim>)
    ensures ok <==> Agree(claims, s)
    ensures ok ==> Claimed(claims, after, s)
  {
    hide Claimed, Agree;
    after := claims;
    NothingClaimed(claims);
    for i := 0 to |s|
      invariant Claimed(claims, after, s[..i]) && Agree(claims, s[..i])
    {
      var a := s[i];
      assert s[..i + 1] == s[..i] + [a];
      if a.path in after && after[a.path] != ByArtifact(Portable(a)) {
        ClaimClash(claims, after, s[..i], a);
        AgreePrefix(claims, s, i + 1);
        return false, after;
      }
      ClaimMore(claims, after, s[..i], a);
      after := after[a.path := ByArtifact(Portable(a))];
    }
    assert s[..|s|] == s;
    ok := true;
  }

  lemma NothingClaimed(claims: map<string, Claim>)
    ensures Claimed(claims, claims, []) && Agree(claims, [])
  {
  }

  lemma AgreePrefix(claims: map<string, Claim>, s: seq<RunnerArtifact>, n: nat)
    requires n <= |s|
    ensures Agree(claims, s) ==> Agree(claims, s[..n])
  {
  }

  lemma DemandedPath(s: RunnerSpec, a: RunnerArtifact)
    requires a in AllArtifacts(s)
    ensures Demands(s, a.path, ByArtifact(Portable(a))) && a.path in KeySet(AllArtifacts(s), RunnerPath)
  {
    var i :| 0 <= i < |AllArtifacts(s)| && AllArtifacts(s)[i] == a;
    assert RunnerPath(AllArtifacts(s)[i]) == a.path;
  }

  lemma DemandsArePaths(s: RunnerSpec, p: string)
    ensures p in SpecPaths(s) ==> exists c :: Demands(s, p, c)
    ensures forall c :: Demands(s, p, c) ==> p in SpecPaths(s)
  {
    if p in RuntimePaths(s) {
      assert Demands(s, p, ByRuntime);
    } else if p in SpecPaths(s) {
      var i :| 0 <= i < |AllArtifacts(s)| && RunnerPath(AllArtifacts(s)[i]) == p;
      DemandedPath(s, AllArtifacts(s)[i]);
    }
    forall c | Demands(s, p, c) ensures p in SpecPaths(s) {
      if c.ByArtifact? {
        var a :| a in AllArtifacts(s) && a.path == p && Portable(a) == c.identity;
        DemandedPath(s, a);
      }
    }
  }

  lemma FitsIffAgrees(claims: map<string, Claim>, s: RunnerSpec)
    ensures Fits(claims, s) <==>
            Agree(claims, AllArtifacts(s)) && RuntimePaths(s) !! claims.Keys + KeySet(AllArtifacts(s), RunnerPath) &&
            s.evidenceDirectory != s.commitManifestPath
  {
    hide AllArtifacts, KeySet;
    if Fits(claims, s) {
      forall a | a in AllArtifacts(s) && a.path in claims ensures claims[a.path] == ByArtifact(Portable(a)) {
        DemandedPath(s, a);
      }
      forall p | p in RuntimePaths(s) ensures p !in claims { assert Demands(s, p, ByRuntime); }
    }
  }

  lemma Extended(claims: map<string, Claim>, after: map<string, Claim>, s: RunnerSpec)
    requires Fits(claims, s) && Claimed(claims, after, AllArtifacts(s))
    ensures Extends(claims, after[s.evidenceDirectory := ByRuntime][s.commitManifestPath := ByRuntime], s)
  {
    FitsIffAgrees(claims, s);
    hide AllArtifacts, KeySet, Tidy;
    var final := after[s.evidenceDirectory := ByRuntime][s.commitManifestPath := ByRuntime];
    forall p, c | Demands(s, p, c) ensures p in final && final[p] == c {
      if c.ByArtifact? {
        var a :| a in AllArtifacts(s) && a.path == p && Portable(a) == c.identity;
        DemandedPath(s, a);
      }
    }
  }

  /** Everything one task claims. */
  method ClaimSpec(claims: map<string, Claim>, s: RunnerSpec) returns (ok: bool, after: map<string, Claim>)
    ensures ok <==> Fits(claims, s)
    ensures ok ==> Extends(claims, after, s)
  {
    hide Fits, Extends, KeySet, Agree;
    FitsIffAgrees(claims, s);
    ok, after := ClaimArtifacts(claims, s.inputs + s.outputs);
    if !ok { return; }
    if s.evidenceDirectory in after || s.commitManifestPath in after || s.commitManifestPath == s.evidenceDirectory {
      return false, after;
    }
    Extended(claims, after, s);
    after := after[s.evidenceDirectory := ByRuntime];
    after := after[s.commitManifestPath := ByRuntime];
  }

  ghost predicate DemandedBySome(specs: seq<RunnerSpec>, p: string, c: Claim) {
    exists s :: s in specs && Demands(s, p, c)
  }

  function PathsOf(specs: seq<RunnerSpec>): set<string> { set s, p | s in specs && p in SpecPaths(s) :: p }

  /** The claims of these specs, and no others. */
  ghost predicate ClaimsOf(claims: map<string, Claim>, specs: seq<RunnerSpec>) {
    (forall s, p, c :: s in specs && Demands(s, p, c) ==> p in claims && claims[p] == c) &&
    forall p :: p in claims ==> DemandedBySome(specs, p, claims[p])
  }

  ghost predicate FitsAll(specs: seq<RunnerSpec>, s: RunnerSpec) { forall t :: t in specs ==> Compatible(t, s) }

  /** A spec fits the claims of others exactly when it is compatible with each of them. */
  lemma FitsIffCompatible(claims: map<string, Claim>, specs: seq<RunnerSpec>, s: RunnerSpec)
    requires ClaimsOf(claims, specs) && Tidy(s)
    ensures Fits(claims, s) <==> FitsAll(specs, s)
  {
    hide Demands, Tidy;
    if FitsAll(specs, s) {
      forall p, c | Demands(s, p, c) && p in claims ensures claims[p] == c && c.ByArtifact? {
        assert DemandedBySome(specs, p, claims[p]);
        var t :| t in specs && Demands(t, p, claims[p]);
        assert Compatible(t, s);
      }
    }
    if Fits(claims, s) {
      forall t | t in specs ensures Compatible(t, s) { }
    }
  }

  lemma ClaimsGrow(claims: map<string, Claim>, after: map<string, Claim>, specs: seq<RunnerSpec>, s: RunnerSpec)
    requires ClaimsOf(claims, specs) && Extends(claims, after, s)
    ensures ClaimsOf(after, specs + [s])
  {
    var more := specs + [s];
    assert forall t :: t in more <==> t in specs || t == s;
    forall p ensures (p in SpecPaths(s) ==> exists c :: Demands(s, p, c)) { DemandsArePaths(s, p); }
    hide Demands, SpecPaths;
    forall p | p in after ensures DemandedBySome(more, p, after[p]) {
      if p in claims {
        assert DemandedBySome(specs, p, claims[p]);
        var t :| t in specs && Demands(t, p, claims[p]);
        assert t in more;
      } else {
        var c :| Demands(s, p, c);
        assert s in more && after[p] == c;
      }
    }
  }

  lemma ClaimedPaths(claims: map<string, Claim>, specs: seq<RunnerSpec>)
    requires ClaimsOf(claims, specs)
    ensures claims.Keys == PathsOf(specs)
  {
    forall s, p | s in specs && p in SpecPaths(s) ensures p in claims {
      DemandsArePaths(s, p);
      var c :| Demands(s, p, c);
    }
    forall p | p in claims ensures p in PathsOf(specs) {
      assert DemandedBySome(specs, p, claims[p]);
      var s :| s in specs && Demands(s, p, claims[p]);
      DemandsArePaths(s, p);
    }
  }

  lemma SamePathSame(s: seq<RunnerArtifact>, a: RunnerArtifact, b: RunnerArtifact)
    requires Distinct(s, RunnerPath) && a in s && b in s && a.path == b.path
    ensures a == b
  {
    var i :| 0 <= i < |s| && s[i] == a;
    var j :| 0 <= j < |s| && s[j] == b;
    assert RunnerPath(s[i]) == RunnerPath(s[j]);
  }

  lemma ApartKeys(s: RunnerSpec)
    ensures KeySet(AllArtifacts(s), RunnerPath) == KeySet(s.inputs, RunnerPath) + KeySet(s.outputs, RunnerPath)
  {
    var all := AllArtifacts(s);
    forall p
      ensures p in KeySet(all, RunnerPath) <==> p in KeySet(s.inputs, RunnerPath) + KeySet(s.outputs, RunnerPath)
    {
      if p in KeySet(all, RunnerPath) {
        var i :| 0 <= i < |all| && RunnerPath(all[i]) == p;
        if i < |s.inputs| { KeyIn(s.inputs, all[i], RunnerPath); } else { KeyIn(s.outputs, all[i], RunnerPath); }
      }
      if p in KeySet(s.inputs, RunnerPath) {
        var i :| 0 <= i < |s.inputs| && RunnerPath(s.inputs[i]) == p;
        assert all[i] == s.inputs[i];
      }
      if p in KeySet(s.outputs, RunnerPath) {
        var i :| 0 <= i < |s.outputs| && RunnerPath(s.outputs[i]) == p;
        assert all[|s.inputs| + i] == s.outputs[i];
      }
    }
  }

  /** A valid spec is tidy. */
  lemma ValidTidy(s: RunnerSpec)
    requires ValidSpec(s)
    ensures Tidy(s)
  {
    FreshIsTidy(s) by { hide SideOk, AliasFree; }
  }

  lemma FreshIsTidy(s: RunnerSpec)
    requires FreshPaths(s.inputs, RuntimePaths(s))
    requires FreshPaths(s.outputs, RuntimePaths(s) + KeySet(s.inputs, RunnerPath))
    requires s.evidenceDirectory != s.commitManifestPath
    ensures Tidy(s)
  {
    hide KeySet, Distinct;
    ApartKeys(s);
    forall a, b | a in AllArtifacts(s) && b in AllArtifacts(s) && a.path == b.path ensures a == b {
      if a in s.inputs && b in s.inputs {
        SamePathSame(s.inputs, a, b);
      } else if a in s.outputs && b in s.outputs {
        SamePathSame(s.outputs, a, b);
      } else if a in s.inputs {
        KeyIn(s.inputs, a, RunnerPath);
        KeyIn(s.outputs, b, RunnerPath);
      } else {
        KeyIn(s.outputs, a, RunnerPath);
        KeyIn(s.inputs, b, RunnerPath);
      }
    }
  }

  lemma SameMembers(s: RunnerSpec, t: RunnerSpec)
    requires SameSpec(s, t)
    ensures forall a :: a in AllArtifacts(s) <==> a in AllArtifacts(t)
    ensures RuntimePaths(s) == RuntimePaths(t) && s.evidenceDirectory == t.evidenceDirectory
    ensures s.commitManifestPath == t.commitManifestPath
    ensures SpecPaths(s) == SpecPaths(t)
  {
    var blank := s.(environment := [], inputs := [], outputs := []);
    assert blank.evidenceDirectory == t.evidenceDirectory && blank.commitManifestPath == t.commitManifestPath;
    PermutationMembers(s.inputs, t.inputs);
    PermutationMembers(s.outputs, t.outputs);
    ApartKeys(s);
    ApartKeys(t);
    PermutationKeys(s.inputs, t.inputs, RunnerPath);
    PermutationKeys(s.outputs, t.outputs, RunnerPath);
  }

  /** Nor do its claims. */
  lemma SameFits(claims: map<string, Claim>, after: map<string, Claim>, s: RunnerSpec, t: RunnerSpec)
    requires SameSpec(s, t)
    ensures Fits(claims, s) ==> Fits(claims, t)
    ensures Extends(claims, after, s) ==> Extends(claims, after, t)
  {
    SameMembers(s, t);
    hide AllArtifacts, KeySet, SpecPaths, RuntimePaths, SameSpec;
    ApartKeysSame(s, t);
    forall p, c ensures Demands(s, p, c) <==> Demands(t, p, c) { }
  }

  lemma ApartKeysSame(s: RunnerSpec, t: RunnerSpec)
    requires SameSpec(s, t)
    ensures KeySet(AllArtifacts(s), RunnerPath) == KeySet(AllArtifacts(t), RunnerPath)
  {
    ApartKeys(s);
    ApartKeys(t);
    PermutationKeys(s.inputs, t.inputs, RunnerPath);
    PermutationKeys(s.outputs, t.outputs, RunnerPath);
  }

  // ----- lowering -----

  /** Go's zero values, which a missing map entry yields. */
  const ZERO_ROW := MatrixEntry("", Platform("", "", ""), None, [], [])
  const ZERO_BINDING := TaskBinding("", "", "", [], "", "", "", 0, 0)

  function RowFor(rows: map<string, MatrixEntry>, t: Task): MatrixEntry {
    if t.id in rows then rows[t.id] else ZERO_ROW
  }

  function FactsFor(table: map<string, Facts>, t: Task): Facts {
    if t.id in table then table[t.id] else FactsOf(ZERO_BINDING)
  }

  predicate Runnable(t: Task, row: MatrixEntry) {
    KubeName(t.id) && |t.id| <= 63 && t.lane in {"cluster", "container"} && t.distribution in {"single", SHARDABLE} &&
    row.platform.backend == "k3s" && row.platform.os == "linux"
  }

  function SpecAt(c: Pipeline, rows: map<string, MatrixEntry>, table: map<string, Facts>, t: Task): RunnerSpec {
    SpecOf(c, t, RowFor(rows, t), FactsFor(table, t))
  }

  function Specs(c: Pipeline, rows: map<string, MatrixEntry>, table: map<string, Facts>,
                 tasks: seq<Task>): (r: seq<RunnerSpec>)
    ensures |r| == |tasks| && forall i :: 0 <= i < |tasks| ==> r[i] == SpecAt(c, rows, table, tasks[i])
  {
    seq(|tasks|, i requires 0 <= i < |tasks| => SpecAt(c, rows, table, tasks[i]))
  }

  ghost predicate TaskLowers(c: Pipeline, rows: map<string, MatrixEntry>, table: map<string, Facts>, t: Task) {
    t.id in table && Runnable(t, RowFor(rows, t)) && BindsExactly(RowFor(rows, t), table[t.id]) &&
    ValidSpec(SpecAt(c, rows, table, t))
  }

  ghost predicate TasksLower(c: Pipeline, rows: map<string, MatrixEntry>, table: map<string, Facts>, tasks: seq<Task>) {
    (forall t :: t in tasks ==> TaskLowers(c, rows, table, t)) &&
    forall i, j :: 0 <= i < j < |tasks| ==>
      Compatible(SpecAt(c, rows, table, tasks[i]), SpecAt(c, rows, table, tasks[j]))
  }

  function Rows(c: Pipeline): map<string, MatrixEntry> { IndexBy(c.matrix, RowTask) }

  /** Exactly the pipelines and bindings that lower: safe names, one row and one binding per task, only what
      a k3s container can run, valid specs that share paths only for identical artifacts, and all paths of
      the workflow leaves of one tree. */
  ghost predicate Lowerable(c: Pipeline, table: map<string, Facts>) {
    KubeName(c.pipeline) && |c.pipeline| <= 52 && Distinct(c.matrix, RowTask) && |table| == |c.tasks| &&
    TasksLower(c, Rows(c), table, c.tasks) && AliasFree(PathsOf(Specs(c, Rows(c), table, c.tasks)))
  }

  function DagTaskOf(t: Task): DagTask { DagTask(t.id, t.id, t.needs) }

  /** The container that runs a task under this spec. */
  function ContainerUnder(e: Encoders, mount: string, distribution: string, spec: RunnerSpec, f: Facts): Template {
    Container(spec.task, distribution, spec.platform.arch, f.image, f.runnerPath,
              ["dhnt", "run-task", "--workspace", mount, "--spec-base64", e.base64(e.spec(spec)), "--"] + spec.argv,
              Clean(mount + "/" + spec.workingDirectory), mount, f.timeoutSeconds, f.retryLimit)
  }

  function ContainerOf(e: Encoders, c: Pipeline, mount: string, t: Task, row: MatrixEntry, f: Facts): Template {
    ContainerUnder(e, mount, t.distribution, SpecOf(c, t, row, f), f)
  }

  function Containers(e: Encoders, c: Pipeline, mount: string, rows: map<string, MatrixEntry>,
                      table: map<string, Facts>, tasks: seq<Task>): (r: seq<Template>)
    ensures |r| == |tasks|
    ensures forall i :: 0 <= i < |tasks| ==>
      r[i] == ContainerOf(e, c, mount, tasks[i], RowFor(rows, tasks[i]), FactsFor(table, tasks[i]))
  {
    seq(|tasks|, i requires 0 <= i < |tasks| => ContainerOf(e, c, mount, tasks[i], RowFor(rows, tasks[i]),
        FactsFor(table, tasks[i])))
  }

  /** The workflow of a canonical pipeline. */
  function Lowered(e: Encoders, c: Pipeline, ws: Storage, table: map<string, Facts>): Workflow {
    Workflow(c.pipeline + "-", c.pipeline, c.source.commit, c.source.sha256, ENTRY, ws,
             [Dag(ENTRY, Map(DagTaskOf, c.tasks))] + Containers(e, c, ws.mountPath, Rows(c), table, c.tasks))
  }

  /** The container of the canonical pipeline, from the task as it was given. */
  lemma ContainerCommutes(e: Encoders, p: Pipeline, mount: string, t: Task, row: MatrixEntry, f: Facts)
    requires NamedOnce(row)
    ensures var json := e.spec(CanonicalSpec(SpecOf(p, t, row, f)));
            ContainerOf(e, CanonicalForm(p), mount, CanonicalTask(t), CanonicalRow(row), f) ==
            Container(t.id, t.distribution, row.platform.arch, f.image, f.runnerPath,
                      ["dhnt", "run-task", "--workspace", mount, "--spec-base64", e.base64(json), "--"] + t.argv,
                      Clean(mount + "/" + t.workingDirectory), mount, f.timeoutSeconds, f.retryLimit)
  {
    hide SortBy, CanonicalForm;
    SpecCommutes(p, t, row, f);
  }

  /** The body of the loop over the tasks, up to the template. */
  method LowerTask(e: Encoders, p: Pipeline, mount: string, t: Task, row: MatrixEntry, b: TaskBinding,
                   claims: map<string, Claim>)
    returns (ok: bool, template: Template, after: map<string, Claim>)
    requires NamedOnce(row)
    ensures var f, spec := FactsOf(b), SpecOf(CanonicalForm(p), CanonicalTask(t), CanonicalRow(row), FactsOf(b));
      (ok <==> Runnable(t, row) && BindsExactly(row, f) && Fits(claims, spec) && ValidSpec(spec)) &&
      (ok ==>
       Extends(claims, after, spec) &&
       template == ContainerOf(e, CanonicalForm(p), mount, CanonicalTask(t), CanonicalRow(row), f))
  {
    hide ValidSpec, BindsExactly, Fits, Extends, SameSpec, SortBy, IndexBy, NamedOnce, Runnable, SpecOf;
    after, template := claims, Dag("", []);
    SpecCommutes(p, t, row, FactsOf(b));
    ContainerCommutes(e, p, mount, t, row, FactsOf(b));
    if !Runnable(t, row) { return false, template, after; }
    var spec;
    ok, spec := SpecForTask(p, t, row, b);
    if !ok { return; }
    ghost var canonical := CanonicalSpec(spec);
    CanonicalSpecSame(spec);
    if ValidSpec(spec) { SameValid(spec, canonical); }
    if ValidSpec(canonical) { SameValid(canonical, spec); }
    ok, after := ClaimSpec(claims, spec);
    SameFits(claims, after, spec, canonical);
    SameFits(claims, after, canonical, spec);
    if !ok { return; }
    var json := MarshalSpec(e, spec);
    if json == None { return false, template, after; }
    ok := true;
    template := Container(t.id, t.distribution, row.platform.arch, b.image, b.runnerPath,
                          ["dhnt", "run-task", "--workspace", mount, "--spec-base64", e.base64(json.value), "--"] +
                          t.argv,
                          Clean(mount + "/" + t.workingDirectory), mount, b.timeoutSeconds, b.retryLimit);
  }

  /** The loop filling `matrix`. */
  method RowsByTask(rows: seq<MatrixEntry>) returns (ok: bool, index: map<string, MatrixEntry>)
    ensures ok <==> Distinct(rows, RowTask)
    ensures ok ==> index == IndexBy(rows, RowTask)
  {
    hide IndexBy, Distinct, KeySet;
    index := map[];
    NoRows();
    for i := 0 to |rows|
      invariant index == IndexBy(rows[..i], RowTask) && Distinct(rows[..i], RowTask)
    {
      assert rows[..i + 1] == rows[..i] + [rows[i]];
      IndexExact(rows[..i], RowTask);
      DistinctSnoc(rows[..i], rows[i], RowTask);
      IndexSnoc(rows[..i], rows[i], RowTask);
      if rows[i].task in index {
        if Distinct(rows, RowTask) { DistinctPrefix(rows, i + 1, RowTask); }
        return false, index;
      }
      index := index[rows[i].task := rows[i]];
    }
    assert rows[..|rows|] == rows;
    ok := true;
  }

  lemma NoRows()
    ensures IndexBy([], RowTask) == map[] && Distinct([], RowTask)
  {
  }

  // ----- raw and canonical rows and tasks -----

  lemma CanonicalRowsDistinct(p: Pipeline)
    ensures Distinct(CanonicalForm(p).matrix, RowTask) <==> Distinct(p.matrix, RowTask)
  {
    var mapped := Map(CanonicalRow, p.matrix);
    var sorted := SortBy(mapped, RowKey);
    if Distinct(p.matrix, RowTask) {
      MapDistinct(CanonicalRow, p.matrix, RowTask, RowTask);
      PermutationDistinct(mapped, sorted, RowTask);
    }
    if Distinct(sorted, RowTask) {
      PermutationDistinct(sorted, mapped, RowTask);
      forall i, j | 0 <= i < j < |p.matrix| ensures RowTask(p.matrix[i]) != RowTask(p.matrix[j]) {
        assert RowTask(mapped[i]) != RowTask(mapped[j]);
      }
    }
  }

  lemma CanonicalRowFor(p: Pipeline, t: Task)
    requires Distinct(p.matrix, RowTask) && t.id in IndexBy(p.matrix, RowTask)
    ensures RowFor(Rows(CanonicalForm(p)), t) == CanonicalRow(IndexBy(p.matrix, RowTask)[t.id])
  {
    CanonicalRowsDistinct(p);
    var c := CanonicalForm(p);
    IndexExact(p.matrix, RowTask);
    IndexExact(c.matrix, RowTask);
    var row := IndexBy(p.matrix, RowTask)[t.id];
    SortedMapMembers(CanonicalRow, p.matrix, RowKey);
    assert CanonicalRow(row) in c.matrix && RowTask(CanonicalRow(row)) == t.id;
  }

  lemma CanonicalTasks(p: Pipeline)
    requires Distinct(p.tasks, TaskId)
    ensures CanonicalForm(p).tasks == Map(CanonicalTask, SortBy(p.tasks, TaskId))
  {
    SortMap(CanonicalTask, p.tasks, TaskId, TaskId);
  }

  /** One more task lowers. */
  lemma TasksSnoc(c: Pipeline, rows: map<string, MatrixEntry>, table: map<string, Facts>, front: seq<Task>, t: Task)
    ensures TasksLower(c, rows, table, front + [t]) <==>
            TasksLower(c, rows, table, front) && TaskLowers(c, rows, table, t) &&
            FitsAll(Specs(c, rows, table, front), SpecAt(c, rows, table, t))
    ensures Specs(c, rows, table, front + [t]) == Specs(c, rows, table, front) + [SpecAt(c, rows, table, t)]
  {
    hide TaskLowers, Compatible, SpecAt;
    var all, specs, spec := front + [t], Specs(c, rows, table, front), SpecAt(c, rows, table, t);
    assert forall x :: x in all <==> x in front || x == t;
    if TasksLower(c, rows, table, all) {
      forall i, j | 0 <= i < j < |front|
        ensures Compatible(SpecAt(c, rows, table, front[i]), SpecAt(c, rows, table, front[j]))
      {
        assert all[i] == front[i] && all[j] == front[j];
      }
      forall x | x in specs ensures Compatible(x, spec) {
        var i :| 0 <= i < |specs| && specs[i] == x;
        assert all[i] == front[i] && all[|front|] == t;
      }
    }
    if TasksLower(c, rows, table, front) && FitsAll(specs, spec) {
      forall i, j | 0 <= i < j < |all|
        ensures Compatible(SpecAt(c, rows, table, all[i]), SpecAt(c, rows, table, all[j]))
      {
        if j == |front| { assert specs[i] in specs; }
      }
    }
  }

  lemma TasksPrefix(c: Pipeline, rows: map<string, MatrixEntry>, table: map<string, Facts>, tasks: seq<Task>, n: nat)
    requires n <= |tasks| && TasksLower(c, rows, table, tasks)
    ensures TasksLower(c, rows, table, tasks[..n])
  {
    hide TaskLowers, Compatible, SpecAt;
  }

  /** What the loop over the tasks has built. */
  ghost predicate Building(e: Encoders, c: Pipeline, mount: string, rows: map<string, MatrixEntry>,
                           table: map<string, Facts>, done: seq<Task>, claims: map<string, Claim>, dag: seq<DagTask>,
                           containers: seq<Template>) {
    TasksLower(c, rows, table, done) && ClaimsOf(claims, Specs(c, rows, table, done)) &&
    dag == Map(DagTaskOf, done) && containers == Containers(e, c, mount, rows, table, done)
  }

  lemma BuildingStart(e: Encoders, c: Pipeline, mount: string, rows: map<string, MatrixEntry>,
                      table: map<string, Facts>)
    ensures Building(e, c, mount, rows, table, [], map[], [], [])
  {
  }

  /** One turn of the loop: it goes on exactly when this task lowers beside those before it. */
  lemma BuildingStep(e: Encoders, c: Pipeline, mount: string, rows: map<string, MatrixEntry>,
                     table: map<string, Facts>, done: seq<Task>, claims: map<string, Claim>, after: map<string, Claim>,
                     dag: seq<DagTask>, containers: seq<Template>, t: Task)
    requires Building(e, c, mount, rows, table, done, claims, dag, containers) && t.id in table
    ensures var spec := SpecAt(c, rows, table, t);
      var ok := Runnable(t, RowFor(rows, t)) && BindsExactly(RowFor(rows, t), table[t.id]) && Fits(claims, spec) &&
        ValidSpec(spec);
      (ok <==> TasksLower(c, rows, table, done + [t])) &&
      (ok && Extends(claims, after, spec) ==>
        Building(e, c, mount, rows, table, done + [t], after, dag + [DagTaskOf(t)],
                 containers + [ContainerOf(e, c, mount, t, RowFor(rows, t), table[t.id])]))
  {
    hide ValidSpec, BindsExactly, Fits, Extends, Runnable, TasksLower, ClaimsOf, ContainerOf, FitsAll, SpecAt;
    var spec := SpecAt(c, rows, table, t);
    TasksSnoc(c, rows, table, done, t);
    if ValidSpec(spec) {
      ValidTidy(spec);
      FitsIffCompatible(claims, Specs(c, rows, table, done), spec);
    }
    if Extends(claims, after, spec) { ClaimsGrow(claims, after, Specs(c, rows, table, done), spec); }
    MapConcat(DagTaskOf, done, [t]);
    assert Map(DagTaskOf, [t]) == [DagTaskOf(t)];
  }

  /** The loop over the tasks in the order of their ids. */
  method LowerTasks(e: Encoders, p: Pipeline, mount: string, tasks: seq<Task>, rows: map<string, MatrixEntry>,
                    bindings: map<string, TaskBinding>, ghost crows: map<string, MatrixEntry>,
                    ghost table: map<string, Facts>)
    returns (ok: bool, dag: seq<DagTask>, containers: seq<Template>, claims: map<string, Claim>)
    requires forall t :: t in tasks ==>
      t.id in rows && NamedOnce(rows[t.id]) && RowFor(crows, CanonicalTask(t)) == CanonicalRow(rows[t.id])
    requires forall id :: id in bindings <==> id in table
    requires forall id :: id in bindings ==> table[id] == FactsOf(bindings[id])
    ensures ok <==> TasksLower(CanonicalForm(p), crows, table, Map(CanonicalTask, tasks))
    ensures ok ==>
      Building(e, CanonicalForm(p), mount, crows, table, Map(CanonicalTask, tasks), claims, dag, containers)
  {
    hide Building, TasksLower, ValidSpec, BindsExactly, Fits, Extends, Runnable, ContainerOf, SpecOf, NamedOnce,
         SortBy, IndexBy;
    ghost var c, all := CanonicalForm(p), Map(CanonicalTask, tasks);
    dag, containers, claims := [], [], map[];
    BuildingStart(e, c, mount, crows, table);
    for i := 0 to |tasks|
      invariant Building(e, c, mount, crows, table, all[..i], claims, dag, containers)
    {
      var task := tasks[i];
      assert all[..i + 1] == all[..i] + [CanonicalTask(task)];
      if task.id !in bindings {
        Unlisted(c, crows, table, all, i);
        return false, dag, containers, claims;
      }
      var template, after;
      ok, template, after := LowerTask(e, p, mount, task, rows[task.id], bindings[task.id], claims);
      RunnableSame(task, rows[task.id]);
      BindsSame(rows[task.id], table[task.id]);
      BuildingStep(e, c, mount, crows, table, all[..i], claims, after, dag, containers, CanonicalTask(task));
      if !ok {
        if TasksLower(c, crows, table, all) { TasksPrefix(c, crows, table, all, i + 1); }
        return;
      }
      dag, containers, claims :=
        dag + [DagTask(task.id, task.id, SortBy(task.needs, Id))], containers + [template], after;
    }
    assert all[..|all|] == all;
    BuildingDone(e, c, mount, crows, table, all, claims, dag, containers);
    ok := true;
  }

  lemma BuildingDone(e: Encoders, c: Pipeline, mount: string, rows: map<string, MatrixEntry>,
                     table: map<string, Facts>, done: seq<Task>, claims: map<string, Claim>, dag: seq<DagTask>,
                     containers: seq<Template>)
    requires Building(e, c, mount, rows, table, done, claims, dag, containers)
    ensures TasksLower(c, rows, table, done)
  {
  }

  lemma Unlisted(c: Pipeline, rows: map<string, MatrixEntry>, table: map<string, Facts>, tasks: seq<Task>, i: nat)
    requires i < |tasks| && tasks[i].id !in table
    ensures !TasksLower(c, rows, table, tasks)
  {
    assert tasks[i] in tasks;
  }

  lemma RunnableSame(t: Task, row: MatrixEntry)
    ensures Runnable(CanonicalTask(t), CanonicalRow(row)) <==> Runnable(t, row)
  {
  }

  lemma BindsSame(row: MatrixEntry, f: Facts)
    ensures BindsExactly(CanonicalRow(row), f) <==> BindsExactly(row, f)
  {
    PermutationKeys(row.inputs, SortedArtifacts(row.inputs), ArtifactName);
    PermutationKeys(row.outputs, SortedArtifacts(row.outputs), ArtifactName);
  }

  /** lowerArgoV2: it lowers exactly the lowerable pipelines, to the workflow of their canonical form. */
  method LowerV2(e: Encoders, p: Pipeline, binding: Binding) returns (w: Option<Workflow>)
    requires ValidPipeline(p) && p.schema == PIPELINE_V2
    ensures w.Some? <==> Lowerable(CanonicalForm(p), Table(binding))
    ensures w.Some? ==> w.value == Lowered(e, CanonicalForm(p), binding.workspace, Table(binding))
  {
    ghost var c, table := CanonicalForm(p), Table(binding);
    PipelineFacts(p);
    hide ValidPipeline, TasksLower, AliasFree, Lowered, SortBy, IndexBy, NamedOnce, Building, PathsOf, Distinct,
         KubeName;
    if !KubeName(p.pipeline) || |p.pipeline| > 52 { return None; }
    CanonicalRowsDistinct(p);
    var ok, rows := RowsByTask(p.matrix);
    if !ok { return None; }
    var bindings := Index(binding.tasks, BindingId);
    assert table.Keys == bindings.Keys && |table| == |bindings|;
    if |bindings| != |p.tasks| { return None; }
    var tasks := SortBy(p.tasks, TaskId);
    CanonicalTasks(p);
    RowsReady(p, tasks, rows);
    var dag, containers, claims;
    ok, dag, containers, claims := LowerTasks(e, p, binding.workspace.mountPath, tasks, rows, bindings, Rows(c), table);
    if !ok { return None; }
    BuildingClaims(e, c, binding.workspace.mountPath, Rows(c), table, c.tasks, claims, dag, containers);
    ok := AliasCheck(claims);
    if !ok { return None; }
    w := Some(Workflow(p.pipeline + "-", p.pipeline, p.source.commit, p.source.sha256, ENTRY, binding.workspace,
                       [Dag(ENTRY, dag)] + containers));
    IsLowered(e, c, binding.workspace, table, dag, containers);
  }

  /** rejectPathAliases over what was claimed. */
  method AliasCheck(claims: map<string, Claim>) returns (ok: bool)
    ensures ok <==> AliasFree(claims.Keys)
  {
    hide AliasFree;
    var paths := map p | p in claims :: p;
    assert paths.Keys == claims.Keys;
    ok := RejectPathAliases(paths);
  }

  lemma BuildingClaims(e: Encoders, c: Pipeline, mount: string, rows: map<string, MatrixEntry>,
                       table: map<string, Facts>, done: seq<Task>, claims: map<string, Claim>, dag: seq<DagTask>,
                       containers: seq<Template>)
    requires Building(e, c, mount, rows, table, done, claims, dag, containers)
    ensures claims.Keys == PathsOf(Specs(c, rows, table, done))
    ensures dag == Map(DagTaskOf, done) && containers == Containers(e, c, mount, rows, table, done)
  {
    hide ClaimsOf, TasksLower;
    ClaimedPaths(claims, Specs(c, rows, table, done));
  }

  lemma IsLowered(e: Encoders, c: Pipeline, ws: Storage, table: map<string, Facts>, dag: seq<DagTask>,
                  containers: seq<Template>)
    requires dag == Map(DagTaskOf, c.tasks) && containers == Containers(e, c, ws.mountPath, Rows(c), table, c.tasks)
    ensures Lowered(e, c, ws, table) ==
      Workflow(c.pipeline + "-", c.pipeline, c.source.commit, c.source.sha256, ENTRY, ws,
               [Dag(ENTRY, dag)] + containers)
  {
  }

  lemma PipelineFacts(p: Pipeline)
    requires ValidPipeline(p)
    ensures Distinct(p.tasks, TaskId)
    ensures forall t :: t in p.tasks ==> Covered(p.matrix, t.id)
    ensures forall r :: r in p.matrix ==> NamedOnce(r)
    ensures |CanonicalForm(p).tasks| == |p.tasks|
  {
    ByIdExact(p.tasks);
    forall r | r in p.matrix ensures NamedOnce(r) { assert RowOk(p.schema, ById(p.tasks), r); }
    forall t | t in p.tasks ensures Covered(p.matrix, t.id) { assert t.id in ById(p.tasks); }
  }

  lemma RowsReady(p: Pipeline, tasks: seq<Task>, rows: map<string, MatrixEntry>)
    requires Distinct(p.matrix, RowTask) && rows == IndexBy(p.matrix, RowTask) && multiset(tasks) == multiset(p.tasks)
    requires forall t :: t in p.tasks ==> Covered(p.matrix, t.id)
    requires forall r :: r in p.matrix ==> NamedOnce(r)
    ensures forall t :: t in tasks ==>
      t.id in rows && NamedOnce(rows[t.id]) &&
      RowFor(Rows(CanonicalForm(p)), CanonicalTask(t)) == CanonicalRow(rows[t.id])
  {
    hide NamedOnce, SortBy;
    PermutationMembers(tasks, p.tasks);
    IndexExact(p.matrix, RowTask);
    forall t | t in tasks
      ensures t.id in rows && NamedOnce(rows[t.id])
      ensures RowFor(Rows(CanonicalForm(p)), CanonicalTask(t)) == CanonicalRow(rows[t.id])
    {
      assert Covered(p.matrix, t.id);
      var r :| r in p.matrix && r.task == t.id;
      assert RowTask(r) in rows;
      CanonicalRowFor(p, CanonicalTask(t));
    }
  }
}
