/** What a mixed lowering asks of a task in its lane, and the paths its tasks claim together. */
module MixedLanes {
  import opened Order
  import opened Paths
  import opened Contract
  import opened RunnerSpecs
  import opened Argo

  datatype NativeInput = NativeInput(name: string, url: string)

  datatype NativeBinding = NativeBinding(task: string, inputs: seq<NativeInput>, activeDeadlineSeconds: int)

  function NativeTask(n: NativeBinding): string { n.task }
  function NativeName(i: NativeInput): string { i.name }

  // ----- lanes -----

  /** Accelerators, if any are asked for, have a Kubernetes resource. */
  predicate Mappable(t: Task) {
    t.placement.Some? && t.placement.value.acceleratorCount > 0 ==>
      t.placement.value.acceleratorKind in ["cuda", "nvidia", "rocm", "amd"]
  }

  /** One host, no retry, one deadline, one file output, no reserved variable. */
  predicate NativeShape(t: Task, row: MatrixEntry, b: TaskBinding, n: NativeBinding) {
    (t.distribution == COUPLED && t.placement.Some? ==> t.placement.value.cohortSize == 1) &&
    row.platform.backend == "vk-native" && b.retryLimit == 0 && b.timeoutSeconds == n.activeDeadlineSeconds &&
    |row.outputs| == 1 && row.outputs[0].kind == FILE && forall e :: e in t.environment ==> !("DHNT_" <= e.name)
  }

  /** And a URL for each input and for nothing else. */
  ghost predicate NativeFits(t: Task, row: MatrixEntry, b: TaskBinding, n: NativeBinding) {
    NativeShape(t, row, b, n) && KeySet(n.inputs, NativeName) == KeySet(row.inputs, ArtifactName)
  }

  predicate ClusterShape(row: MatrixEntry) { row.platform.backend == "k3s" && row.platform.os == "linux" }

  ghost predicate LaneFits(p: Pipeline, t: Task, row: MatrixEntry, b: TaskBinding,
                           natives: map<string, NativeBinding>) {
    Mappable(t) &&
    if t.lane in ["cluster", "container"] then ClusterShape(row) && ValidSpec(SpecOf(p, t, row, FactsOf(b)))
    else t.lane == NATIVE && t.id in natives && NativeFits(t, row, b, natives[t.id])
  }

  /** The URL coverage check: as many names as inputs, and each input among them. */
  method CheckUrls(inputs: seq<Artifact>, urls: seq<NativeInput>) returns (ok: bool)
    requires Distinct(inputs, ArtifactName)
    ensures ok <==> KeySet(urls, NativeName) == KeySet(inputs, ArtifactName)
  {
    hide Distinct;
    IndexNames(urls);
    CountDistinct(inputs, ArtifactName);
    var byName := Index(urls, NativeName);
    assert |byName.Keys| == |byName|;
    if |byName| != |inputs| { return false; }
    for i := 0 to |inputs|
      invariant KeySet(inputs[..i], ArtifactName) <= byName.Keys
    {
      assert inputs[..i + 1] == inputs[..i] + [inputs[i]];
      KeySetSnoc(inputs[..i], inputs[i], ArtifactName);
      KeyIn(inputs, inputs[i], ArtifactName);
      if inputs[i].name !in byName { return false; }
    }
    assert inputs[..|inputs|] == inputs;
    SameSize(KeySet(inputs, ArtifactName), byName.Keys);
    ok := true;
  }

  lemma {:induction false} IndexNames(urls: seq<NativeInput>)
    ensures IndexBy(urls, NativeName).Keys == KeySet(urls, NativeName)
  {
    if urls != [] {
      var front, last := urls[..|urls| - 1], urls[|urls| - 1];
      assert urls == front + [last];
      IndexNames(front);
      IndexSnoc(front, last, NativeName);
      KeySetSnoc(front, last, NativeName);
    }
  }

  lemma {:induction false} SameSize(a: set<string>, b: set<string>)
    requires a <= b && |a| == |b|
    ensures a == b
    decreases a
  {
    if x :| x in b && x !in a {
      assert a <= b - {x} && |b - {x}| < |a|;
      Smaller(a, b - {x});
    }
  }

  lemma {:induction false} Smaller(a: set<string>, b: set<string>)
    requires a <= b
    ensures |a| <= |b|
  {
    if a != {} {
      var x :| x in a;
      Smaller(a - {x}, b - {x});
    }
  }

  /** The lane switch: lowerMixedClusterTask and lowerMixedNativeTask, as far as they accept. */
  method CheckLane(e: Encoders, p: Pipeline, t: Task, row: MatrixEntry, b: TaskBinding,
                   natives: map<string, NativeBinding>, spec: RunnerSpec)
    returns (ok: bool)
    requires NamedOnce(row) && spec == SpecOf(p, t, row, FactsOf(b))
    ensures ok <==> LaneFits(p, t, row, b, natives)
  {
    hide Distinct, ValidSpec, FactsOf, SpecOf;
    if t.lane in ["cluster", "container"] {
      if !ClusterShape(row) { return false; }
      var json := MarshalSpec(e, spec);
      return json.Some? && Mappable(t);
    }
    if t.lane != NATIVE || t.id !in natives { return false; }
    if !NativeShape(t, row, b, natives[t.id]) || !Mappable(t) { return false; }
    ok := CheckUrls(row.inputs, natives[t.id].inputs);
  }

  /** The final check on native bindings: each is for a native task. */
  predicate NativesBelong(tasks: map<string, Task>, natives: map<string, NativeBinding>) {
    forall id :: id in natives ==> id in tasks && tasks[id].lane == NATIVE
  }

  // ----- claimed paths -----

  /** A path is claimed for an artifact's name and digest; kind and algorithm do not matter. */
  function BareArtifact(a: RunnerArtifact): RunnerArtifact { a.(kind := "", digestAlgorithm := "") }

  function Bare(s: RunnerSpec): RunnerSpec {
    s.(inputs := Map(BareArtifact, s.inputs), outputs := Map(BareArtifact, s.outputs))
  }

  /** No path means two things, within one task or between two. */
  ghost predicate Coexist(specs: seq<RunnerSpec>) {
    (forall s :: s in specs ==> Tidy(s)) && forall i, j :: 0 <= i < j < |specs| ==> Compatible(specs[i], specs[j])
  }

  lemma CoexistSnoc(front: seq<RunnerSpec>, s: RunnerSpec)
    ensures Coexist(front + [s]) <==> Coexist(front) && Tidy(s) && FitsAll(front, s)
  {
    hide Tidy, Compatible;
    var all := front + [s];
    if Coexist(all) {
      forall t | t in front ensures Tidy(t) && Compatible(t, s) {
        assert t in all;
        var i :| 0 <= i < |front| && front[i] == t;
        assert all[i] == t && all[|front|] == s;
      }
      assert s in all;
      forall i, j | 0 <= i < j < |front| ensures Compatible(front[i], front[j]) {
        assert all[i] == front[i] && all[j] == front[j];
      }
    } else if Coexist(front) && Tidy(s) && FitsAll(front, s) {
      forall i, j | 0 <= i < j < |all| ensures Compatible(all[i], all[j]) {
        if j == |front| { assert front[i] in front; }
      }
    }
  }

  lemma CoexistPrefix(specs: seq<RunnerSpec>, n: nat)
    requires n <= |specs|
    ensures Coexist(specs) ==> Coexist(specs[..n])
  {
    hide Tidy, Compatible;
  }

  /** The claims of all tasks and the alias check over them. */
  method ClaimAll(specs: seq<RunnerSpec>) returns (ok: bool)
    ensures ok <==> Coexist(specs) && AliasFree(PathsOf(specs))
  {
    hide Coexist, Fits, Extends, ClaimsOf, FitsAll, Tidy, AliasFree;
    var claims: map<string, Claim> := map[];
    NoClaims();
    for i := 0 to |specs|
      invariant Coexist(specs[..i]) && ClaimsOf(claims, specs[..i])
    {
      assert specs[..i + 1] == specs[..i] + [specs[i]];
      CoexistSnoc(specs[..i], specs[i]);
      CoexistPrefix(specs, i + 1);
      FitsTidy(claims, specs[..i], specs[i]);
      var after;
      ok, after := ClaimSpec(claims, specs[i]);
      if !ok { return; }
      ClaimsGrow(claims, after, specs[..i], specs[i]);
      claims := after;
    }
    assert specs[..|specs|] == specs;
    ClaimedPaths(claims, specs);
    ok := AliasCheck(claims);
  }

  lemma NoClaims()
    ensures Coexist([]) && ClaimsOf(map[], [])
  {
  }

  lemma FitsTidy(claims: map<string, Claim>, specs: seq<RunnerSpec>, s: RunnerSpec)
    requires ClaimsOf(claims, specs)
    ensures Fits(claims, s) <==> Tidy(s) && FitsAll(specs, s)
  {
    if Tidy(s) { FitsIffCompatible(claims, specs, s); }
  }
}
