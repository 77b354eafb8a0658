/** The templates a mixed lowering emits: one for a cluster task, three for a native one. */
module MixedTemplates {
  import opened Order
  import opened Paths
  import opened Contract
  import opened RunnerSpecs
  import opened ChildEnvironment
  import opened Argo
  import opened MixedLanes

  /** Artifacts are declared with the path at which they are mounted. */
  datatype MixedTemplate =
    | Cluster(host: Option<string>, requests: map<string, int>, container: Template,
              inputs: seq<ArtifactPath>, outputs: seq<ArtifactPath>)
    | Wrapper(task: string, create: string, collect: string)
    | Create(id: string, node: string, requests: map<string, int>, variables: seq<Environment>, argv: seq<string>)
    | Collect(id: string)

  function NameOf(t: MixedTemplate): string {
    match t
    case Cluster(_, _, c, _, _) => c.name
    case Wrapper(task, _, _) => task
    case Create(id, _, _, _, _) => id
    case Collect(id) => id
  }

  /** The output artifacts other tasks can refer to. */
  function Declared(t: MixedTemplate): seq<ArtifactPath> { if t.Cluster? then t.outputs else [] }

  function CreateName(id: string): string { id + "-create" }
  function CollectName(id: string): string { id + "-collect" }

  // ----- the environment of a native job -----

  function ArtifactInEnv(a: Artifact): string { EnvName(a.name) }

  function UrlVariable(a: Artifact): string { INPUT + ArtifactInEnv(a) + "_URL" }
  function DigestVariable(a: Artifact): string { INPUT + ArtifactInEnv(a) + "_SHA256" }

  function UrlFor(urls: map<string, string>, a: Artifact): string { if a.name in urls then urls[a.name] else "" }

  /** Where to fetch each input, and what it must hash to. */
  function InputVariables(urls: map<string, string>, inputs: seq<Artifact>): seq<Environment> {
    if inputs == [] then []
    else
      var a := inputs[|inputs| - 1];
      InputVariables(urls, inputs[..|inputs| - 1]) +
      [Environment(UrlVariable(a), UrlFor(urls, a)), Environment(DigestVariable(a), a.sha256)]
  }

  function RuntimeVariables(row: MatrixEntry, node: string): seq<Environment> {
    [Environment("DHNT_EXECUTOR_NODE", node), Environment("DHNT_BACKEND", "vk-native"),
     Environment("DHNT_TARGET_OS", row.platform.os), Environment("DHNT_TARGET_ARCH", row.platform.arch)] +
    if row.outputs == [] then []
    else [Environment("DHNT_EXPECT_OUTPUT_NAME", row.outputs[0].name),
        Environment("DHNT_EXPECT_OUTPUT_SHA256", row.outputs[0].sha256)]
  }

  /** The variables of a native job, before they are sorted by name. */
  function JobVariables(t: Task, row: MatrixEntry, urls: map<string, string>, node: string): seq<Environment> {
    t.environment + InputVariables(urls, row.inputs) + RuntimeVariables(row, node)
  }

  lemma InputNames(a: Artifact, b: Artifact)
    ensures UrlVariable(a) != DigestVariable(b)
    ensures UrlVariable(a) == UrlVariable(b) <==> ArtifactInEnv(a) == ArtifactInEnv(b)
    ensures DigestVariable(a) == DigestVariable(b) <==> ArtifactInEnv(a) == ArtifactInEnv(b)
    ensures INPUT <= UrlVariable(a) && INPUT <= DigestVariable(a)
  {
    hide EnvName;
    var n, x, y := |INPUT|, ArtifactInEnv(a), ArtifactInEnv(b);
    var u, v, d, e := UrlVariable(a), UrlVariable(b), DigestVariable(a), DigestVariable(b);
    assert u[|u| - 1] == 'L' && e[|e| - 1] == '6';
    assert u[n..][..|x|] == x && v[n..][..|y|] == y && d[n..][..|x|] == x && e[n..][..|y|] == y;
    assert |u| == n + |x| + 4 && |v| == n + |y| + 4 && |d| == n + |x| + 7 && |e| == n + |y| + 7;
  }

  ghost predicate OfInput(inputs: seq<Artifact>, name: string) {
    exists a :: a in inputs && (name == UrlVariable(a) || name == DigestVariable(a))
  }

  /** The variables of the inputs are named apart exactly if the inputs are, in the environment's spelling. */
  lemma {:induction false} InputVariablesApart(urls: map<string, string>, inputs: seq<Artifact>)
    ensures Distinct(InputVariables(urls, inputs), EnvironmentName) <==> Distinct(inputs, ArtifactInEnv)
    ensures forall n :: n in KeySet(InputVariables(urls, inputs), EnvironmentName) <==> OfInput(inputs, n)
  {
    hide UrlVariable, DigestVariable, ArtifactInEnv, Distinct, KeySet;
    if inputs == [] {
      Nameless(urls);
    } else {
      var front, a := inputs[..|inputs| - 1], inputs[|inputs| - 1];
      assert inputs == front + [a];
      InputVariablesApart(urls, front);
      DistinctSnoc(front, a, ArtifactInEnv);
      var before, own := InputVariables(urls, front),
        [Environment(UrlVariable(a), UrlFor(urls, a)), Environment(DigestVariable(a), a.sha256)];
      PairApart(own, a);
      KeySetConcat(before, own, EnvironmentName);
      DistinctConcat(before, own, EnvironmentName);
      forall b | b in front ensures ArtifactInEnv(a) == ArtifactInEnv(b) <==> UrlVariable(a) == UrlVariable(b) {
        InputNames(a, b);
      }
      SharedName(front, a);
    }
  }

  lemma Nameless(urls: map<string, string>)
    ensures Distinct(InputVariables(urls, []), EnvironmentName) && Distinct<Artifact>([], ArtifactInEnv)
    ensures KeySet(InputVariables(urls, []), EnvironmentName) == {}
  {
  }

  lemma PairApart(own: seq<Environment>, a: Artifact)
    requires |own| == 2 && own[0].name == UrlVariable(a) && own[1].name == DigestVariable(a)
    ensures Distinct(own, EnvironmentName) && KeySet(own, EnvironmentName) == {UrlVariable(a), DigestVariable(a)}
  {
    hide UrlVariable, DigestVariable;
    InputNames(a, a);
    assert EnvironmentName(own[0]) == UrlVariable(a) && EnvironmentName(own[1]) == DigestVariable(a);
  }

  lemma SharedName(front: seq<Artifact>, a: Artifact)
    ensures ArtifactInEnv(a) in KeySet(front, ArtifactInEnv) <==>
      OfInput(front, UrlVariable(a)) || OfInput(front, DigestVariable(a))
  {
    hide UrlVariable, DigestVariable, ArtifactInEnv, KeySet;
    if ArtifactInEnv(a) in KeySet(front, ArtifactInEnv) {
      var b := KeyFrom(front, ArtifactInEnv(a), ArtifactInEnv);
      InputNames(a, b);
    }
    if b :| b in front && (UrlVariable(a) == UrlVariable(b) || UrlVariable(a) == DigestVariable(b) ||
                           DigestVariable(a) == UrlVariable(b) || DigestVariable(a) == DigestVariable(b)) {
      InputNames(a, b);
      InputNames(b, a);
      KeyIn(front, b, ArtifactInEnv);
    }
  }

  lemma RuntimeApart(row: MatrixEntry, node: string)
    ensures Distinct(RuntimeVariables(row, node), EnvironmentName)
    ensures forall v :: v in RuntimeVariables(row, node) ==> "DHNT_" <= v.name && !(INPUT <= v.name)
  {
    var s := RuntimeVariables(row, node);
    assert |s[0].name| == 18 && |s[1].name| == 12 && |s[2].name| == 14 && |s[3].name| == 16;
    assert |s| > 4 ==> |s| == 6 && |s[4].name| == 23 && |s[5].name| == 25;
    forall i | 0 <= i < |s| ensures "DHNT_" <= s[i].name && !(INPUT <= s[i].name) {
      assert s[i].name[5] != 'I' && INPUT[5] == 'I';
    }
  }

  /** Whatever order sorting leaves them in, every variable of a native job keeps its own value exactly if no
      two inputs are spelled alike in the environment. */
  lemma JobVariablesApart(t: Task, row: MatrixEntry, urls: map<string, string>, node: string, sorted: seq<Environment>)
    requires Distinct(t.environment, EnvironmentName) && forall e :: e in t.environment ==> !("DHNT_" <= e.name)
    requires multiset(sorted) == multiset(JobVariables(t, row, urls, node))
    ensures Distinct(sorted, EnvironmentName) <==> Distinct(row.inputs, ArtifactInEnv)
    ensures Distinct(row.inputs, ArtifactInEnv) ==>
            forall v :: v in JobVariables(t, row, urls, node) ==>
              v.name in IndexBy(sorted, EnvironmentName) && IndexBy(sorted, EnvironmentName)[v.name] == v
  {
    hide Distinct, KeySet, InputVariables, RuntimeVariables, IndexBy;
    var all, own, runtime :=
      JobVariables(t, row, urls, node), InputVariables(urls, row.inputs), RuntimeVariables(row, node);
    InputVariablesApart(urls, row.inputs);
    RuntimeApart(row, node);
    KeySetConcat(t.environment, own, EnvironmentName);
    DistinctConcat(t.environment, own, EnvironmentName);
    DistinctConcat(t.environment + own, runtime, EnvironmentName);
    PartsApart(t.environment, row.inputs, own, runtime);
    if Distinct(all, EnvironmentName) { PermutationDistinct(all, sorted, EnvironmentName); }
    if Distinct(sorted, EnvironmentName) {
      PermutationDistinct(sorted, all, EnvironmentName);
      IndexExact(sorted, EnvironmentName);
      PermutationMembers(all, sorted);
    }
  }

  lemma PartsApart(declared: seq<Environment>, inputs: seq<Artifact>, own: seq<Environment>, runtime: seq<Environment>)
    requires forall e :: e in declared ==> !("DHNT_" <= e.name)
    requires forall n :: n in KeySet(own, EnvironmentName) <==> OfInput(inputs, n)
    requires forall v :: v in runtime ==> "DHNT_" <= v.name && !(INPUT <= v.name)
    ensures KeySet(declared, EnvironmentName) !! KeySet(own, EnvironmentName)
    ensures KeySet(declared, EnvironmentName) + KeySet(own, EnvironmentName) !! KeySet(runtime, EnvironmentName)
  {
    hide KeySet, UrlVariable, DigestVariable;
    forall n | n in KeySet(own, EnvironmentName) ensures INPUT <= n && "DHNT_" <= n {
      var a :| a in inputs && (n == UrlVariable(a) || n == DigestVariable(a));
      InputNames(a, a);
      assert "DHNT_" <= INPUT <= n;
    }
    forall n | n in KeySet(declared, EnvironmentName) ensures !("DHNT_" <= n) {
      var e := KeyFrom(declared, n, EnvironmentName);
    }
    forall n | n in KeySet(runtime, EnvironmentName) ensures "DHNT_" <= n && !(INPUT <= n) {
      var v := KeyFrom(runtime, n, EnvironmentName);
    }
  }

  /** The URLs of a native binding, by input. */
  function UrlsOf(n: NativeBinding): map<string, string> {
    map name | name in IndexBy(n.inputs, NativeName) :: IndexBy(n.inputs, NativeName)[name].url
  }

  // ----- templates -----

  /** placementResourceRequests. */
  function Requests(t: Task): map<string, int> {
    if t.placement == None then map[]
    else
      var p := t.placement.value;
      (if p.cpu > 0 then map["cpu" := p.cpu] else map[]) +
      (if p.memoryBytes > 0 then map["memory" := p.memoryBytes] else map[]) +
      (map resource | resource in p.minimumCapacity :: p.minimumCapacity[resource] as int) +
      if p.acceleratorCount > 0 then map[AcceleratorResource(p.acceleratorKind) := p.acceleratorCount] else map[]
  }

  function AcceleratorResource(kind: string): string {
    if kind == "cuda" || kind == "nvidia" then "nvidia.com/gpu" else "amd.com/gpu"
  }

  function MountedAt(mount: string, a: RunnerArtifact): ArtifactPath {
    ArtifactPath(a.name, Clean(mount + "/" + a.path))
  }

  function Mounted(mount: string, s: seq<RunnerArtifact>): seq<ArtifactPath> { Map(a => MountedAt(mount, a), s) }

  /** A cluster task: its container runs under the canonical spec. */
  function ClusterTemplate(e: Encoders, mount: string, t: Task, spec: RunnerSpec, f: Facts,
                           node: Option<string>): MixedTemplate {
    Cluster(node, Requests(t), ContainerUnder(e, mount, t.distribution, CanonicalSpec(spec), f),
            Mounted(mount, spec.inputs), Mounted(mount, spec.outputs))
  }

  /** A native task: a job is created, then its result is collected. */
  function NativeTemplates(t: Task, row: MatrixEntry, urls: map<string, string>, node: string): seq<MixedTemplate> {
    [Wrapper(t.id, CreateName(t.id), CollectName(t.id)),
     Create(CreateName(t.id), node, Requests(t), JobVariables(t, row, urls, node), t.argv),
     Collect(CollectName(t.id))]
  }

  /** What the templates of all tasks depend on: encoders, pipeline, mount path, and by task its row, its
      binding, its node if it has one, and the URLs of its inputs if it is native. */
  datatype Site = Site(
    e: Encoders, p: Pipeline, mount: string, rows: map<string, MatrixEntry>, table: map<string, Facts>,
    nodes: map<string, string>, urls: map<string, map<string, string>>)

  function NodeFor(nodes: map<string, string>, t: Task): Option<string> {
    if t.id in nodes then Some(nodes[t.id]) else None
  }

  function UrlsFor(urls: map<string, map<string, string>>, t: Task): map<string, string> {
    if t.id in urls then urls[t.id] else map[]
  }

  function TaskTemplates(e: Encoders, mount: string, t: Task, row: MatrixEntry, urls: map<string, string>,
                         spec: RunnerSpec, f: Facts, node: Option<string>): seq<MixedTemplate> {
    if t.lane == NATIVE then NativeTemplates(t, row, urls, if node.Some? then node.value else "")
    else [ClusterTemplate(e, mount, t, spec, f, node)]
  }

  /** The templates of one task. */
  function Own(g: Site, t: Task): seq<MixedTemplate> {
    var row, f := RowFor(g.rows, t), FactsFor(g.table, t);
    TaskTemplates(g.e, g.mount, t, row, UrlsFor(g.urls, t), SpecOf(g.p, t, row, f), f, NodeFor(g.nodes, t))
  }

  /** The templates of these tasks, in order. */
  function Flat(g: Site, tasks: seq<Task>): seq<MixedTemplate> {
    if tasks == [] then [] else Flat(g, tasks[..|tasks| - 1]) + Own(g, tasks[|tasks| - 1])
  }

  lemma FlatSnoc(g: Site, front: seq<Task>, t: Task)
    ensures Flat(g, front + [t]) == Flat(g, front) + Own(g, t)
  {
    hide Own;
    assert (front + [t])[..|front|] == front;
  }
}
