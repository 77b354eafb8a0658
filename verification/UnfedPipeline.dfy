/** A valid pipeline that mixed lowering accepts although its workflow cannot run to the end: one task needs
    the other, which takes what the first makes. */
module UnfedPipeline {
  import opened Order
  import opened Acyclic
  import opened Contract
  import opened Pipelines
  import opened RunnerSpecs
  import opened ChildEnvironment
  import opened Argo
  import opened MixedLanes
  import opened MixedArgo
  import opened MixedWorkflows
  import opened MixedMeaning

  function Digest(c: char): string { seq(64, i => c) }

  function File(name: string, c: char): Artifact { Artifact(name, FILE, FILE_DIGEST, Digest(c)) }

  function Maker(): Task { Task("maker", "cluster", "single", ["user"], ["run"], ".", [], None, "") }

  function User(): Task {
    Task("user", "cluster", "single", [], ["run"], ".", [], Some(Placement(1, 0, "", "", 0, 0, map[], "", 1)), "")
  }

  function Linux(): Platform { Platform("k3s", "linux", "amd64") }

  function MakerRow(): MatrixEntry { MatrixEntry("maker", Linux(), None, [File("x", '0')], [File("y", '1')]) }
  function UserRow(): MatrixEntry { MatrixEntry("user", Linux(), None, [File("y", '1')], [File("z", '2')]) }

  function Circle(): Pipeline {
    Pipeline(PIPELINE_V2, "p", Source("r", "c", Digest('0')), [Maker(), User()], [MakerRow(), UserRow()])
  }

  function Bound(id: string, artifacts: seq<ArtifactPath>, evidence: string, manifest: string): TaskBinding {
    TaskBinding(id, "image@sha256:" + Digest('0'), "/bin/run", artifacts, evidence, manifest, TEST_FAIL, 1, 0)
  }

  function MakerBinding(): TaskBinding {
    Bound("maker", [ArtifactPath("x", "in"), ArtifactPath("y", Digest('1'))], "e", "m")
  }

  function UserBinding(): TaskBinding {
    Bound("user", [ArtifactPath("y", Digest('1')), ArtifactPath("z", Digest('2'))], "f", "n")
  }

  function CircleBinding(): Binding { Binding(Storage("claim", false, "/w"), [MakerBinding(), UserBinding()]) }

  function CirclePlan(): Plan { Plan(PLACEMENT_PLAN, "p", [Cohort("user", ["worker"], "", "")], []) }

  function Workers(): seq<Resolution> { [Resolution("worker", "node", "k3s", "linux", "amd64", "", "")] }

  function Stored(): seq<Initial> { [Initial("x", Digest('0'), "key")] }

  // ----- two of a kind -----

  lemma TwoDistinct<T(!new)>(s: seq<T>, key: T -> string)
    requires |s| == 2 && key(s[0]) != key(s[1])
    ensures Distinct(s, key) && KeySet(s, key) == {key(s[0]), key(s[1])}
    ensures IndexBy(s, key) == map[key(s[0]) := s[0], key(s[1]) := s[1]]
  {
    assert s == [s[0]] + [s[1]];
    IndexSnoc([s[0]], s[1], key);
    IndexSnoc([], s[0], key);
    assert [] + [s[0]] == [s[0]];
  }

  lemma OneKeyed<T>(x: T, key: T -> string)
    ensures KeySet([x], key) == {key(x)} && IndexBy([x], key) == map[key(x) := x]
  {
    var one := [x];
    assert one[..0] == [] && one[0] == x;
  }

  lemma Digests(c: char, d: char)
    requires LowerHex(c) && LowerHex(d)
    ensures ValidDigest(Digest(c)) && (Digest(c) == Digest(d) ==> c == d)
    ensures |Digest(c)| == 64 && '/' !in Digest(c)
  {
    assert Digest(c)[0] == c && Digest(d)[0] == d;
  }

  lemma Ids()
    ensures forall n :: n in {"p", "maker", "user", "x", "y", "z"} ==> ValidId(n)
  {
  }

  // ----- the pipeline is valid -----

  lemma TaskValid(t: Task)
    requires t == Maker() || t == User()
    ensures TaskOk(PIPELINE_V2, t)
  {
    Ids();
    SeatIsClean(".");
    hide ValidId, ValidWorkingDirectory;
  }

  lemma TasksValid()
    ensures TasksOk(PIPELINE_V2, Circle().tasks)
  {
    TaskValid(Maker());
    TaskValid(User());
    hide TaskOk;
    TwoDistinct(Circle().tasks, TaskId);
  }

  lemma TasksKnown()
    ensures ById(Circle().tasks) == map["maker" := Maker(), "user" := User()] && NeedsOk(Circle().tasks)
  {
    TwoDistinct(Circle().tasks, TaskId);
  }

  lemma NoCircleOfNeeds()
    ensures !Cyclic(NeedsOf(ById(Circle().tasks)))
  {
    TasksKnown();
    var needs := NeedsOf(ById(Circle().tasks));
    assert needs.Keys == {"maker", "user"} && needs["maker"] == ["user"] && needs["user"] == [];
    var s := ["user", "maker"];
    assert s[..0] == [] && s[..1] == ["user"];
    ScheduledIsAcyclic(needs, s);
  }

  lemma RowFits(row: MatrixEntry, t: Task, a: Artifact, b: Artifact)
    requires t == Maker() || t == User()
    requires row == MatrixEntry(t.id, Linux(), None, [a], [b]) && ValidArtifact(a, PIPELINE_V2)
    requires ValidArtifact(b, PIPELINE_V2)
    ensures RowOk(PIPELINE_V2, ById(Circle().tasks), row)
  {
    TasksKnown();
    hide ValidArtifact, ById;
    assert Distinct([a], ArtifactName) && Distinct([b], ArtifactName);
  }

  lemma FilesValid()
    ensures forall f :: f in {File("x", '0'), File("y", '1'), File("z", '2')} ==> ValidArtifact(f, PIPELINE_V2)
  {
    Ids();
    Digests('0', '1');
    Digests('1', '2');
    Digests('2', '0');
    hide ValidId, ValidDigest, Digest;
  }

  lemma RowsValid()
    ensures MatrixOk(PIPELINE_V2, ById(Circle().tasks), Circle().matrix)
  {
    TasksKnown();
    FilesValid();
    hide ValidArtifact, File, ById, RowOk, Linux;
    RowFits(MakerRow(), Maker(), File("x", '0'), File("y", '1'));
    RowFits(UserRow(), User(), File("y", '1'), File("z", '2'));
    var rows := Circle().matrix;
    assert RowKey(rows[0])[0] == 'm' && RowKey(rows[1])[0] == 'u';
    TwoDistinct(rows, RowKey);
    assert MakerRow() in rows && UserRow() in rows;
  }

  lemma CircleValid()
    ensures ValidPipeline(Circle())
  {
    TasksValid();
    TasksKnown();
    NoCircleOfNeeds();
    RowsValid();
    Ids();
    Digests('0', '0');
    PlainSource(Circle().source);
    hide ValidId, ValidSource, TasksOk, NeedsOk, Cyclic, MatrixOk, ById;
    NoShards();
  }

  lemma NoShards()
    ensures ReduceCovered(ById(Circle().tasks), ChunksOf(Circle().matrix))
  {
    hide ById;
    var rows := Circle().matrix;
    assert rows[..1] == [MakerRow()] && [MakerRow()][..0] == [];
    assert ChunksOf(rows) == map[];
  }

  // ----- it is accepted -----

  lemma Indexes()
    ensures IndexBy(Circle().matrix, RowTask) == map["maker" := MakerRow(), "user" := UserRow()]
    ensures Distinct(Circle().matrix, RowTask)
    ensures IndexBy(CircleBinding().tasks, BindingId) == map["maker" := MakerBinding(), "user" := UserBinding()]
    ensures IndexBy(Workers(), WorkerOf) == map["worker" := Workers()[0]]
    ensures IndexBy(Stored(), InitialId) == map[InitialId(Stored()[0]) := Stored()[0]]
    ensures IndexBy<NativeBinding>([], NativeTask) == map[]
  {
    hide Digest;
    TwoDistinct(Circle().matrix, RowTask);
    TwoDistinct(CircleBinding().tasks, BindingId);
    OneKeyed(Workers()[0], WorkerOf);
    OneKeyed(Stored()[0], InitialId);
  }

  lemma CirclePlanFits(hash: Membership)
    ensures PlanFits(hash, Circle(), CirclePlan()) && Places(CirclePlan()) == [Placed("user", "worker")]
  {
    TasksKnown();
    hide IndexBy, ById, Digest;
    assert Places(CirclePlan()) == [Placed("user", "worker")];
    OneKeyed(Placed("user", "worker"), PlacedTask);
    var cohort := CirclePlan().cohorts[0];
    assert cohort.workers[0][0] == 'w' && cohort.workers[0][0] in cohort.workers[0];
    assert CohortOk(ById(Circle().tasks), cohort);
  }

  lemma CirclePlaceable(hash: Membership)
    ensures Placeable(hash, Circle(), CirclePlan(), Workers()) && PlanSuits(Circle(), CirclePlan(), Workers())
  {
    CirclePlanFits(hash);
    Indexes();
    OneKeyed(Placed("user", "worker"), PlacedWorker);
    hide IndexBy, Digest, PlanFits, Places;
  }

  function MakerSpec(): RunnerSpec { SpecOf(Circle(), Maker(), MakerRow(), FactsOf(MakerBinding())) }
  function UserSpec(): RunnerSpec { SpecOf(Circle(), User(), UserRow(), FactsOf(UserBinding())) }

  function At(a: Artifact, path: string): RunnerArtifact { RunnerArtifact(a.name, FILE, FILE_DIGEST, a.sha256, path) }

  lemma Specs()
    ensures MakerSpec() == RunnerSpec(RUNNER_SPEC, "p", "maker", Source("r", "c", Digest('0')), ["run"], ".", [],
                                      [At(File("x", '0'), "in")], [At(File("y", '1'), Digest('1'))], "e", "m",
                                      TEST_FAIL, Linux())
    ensures UserSpec() == RunnerSpec(RUNNER_SPEC, "p", "user", Source("r", "c", Digest('0')), ["run"], ".", [],
                                     [At(File("y", '1'), Digest('1'))], [At(File("z", '2'), Digest('2'))], "f", "n",
                                     TEST_FAIL, Linux())
    ensures BindsExactly(MakerRow(), FactsOf(MakerBinding())) && BindsExactly(UserRow(), FactsOf(UserBinding()))
  {
    hide Digest;
    TwoDistinct(MakerBinding().artifacts, PathName);
    TwoDistinct(UserBinding().artifacts, PathName);
    OneKeyed(File("x", '0'), ArtifactName);
    OneKeyed(File("y", '1'), ArtifactName);
    OneKeyed(File("z", '2'), ArtifactName);
    hide IndexBy;
    assert Located(FactsOf(MakerBinding()).paths, MakerRow().inputs) == [At(File("x", '0'), "in")];
  }

  lemma OneFileEach(s: RunnerSpec, id: string, input: RunnerArtifact, output: RunnerArtifact, evidence: string,
                    manifest: string)
    requires s == RunnerSpec(RUNNER_SPEC, "p", id, Source("r", "c", Digest('0')), ["run"], ".", [], [input], [output],
                             evidence, manifest, TEST_FAIL, Linux())
    requires ValidId(id) && PlainFile(input, false) && PlainFile(output, true) && Segment(evidence) && Segment(manifest)
    requires input.path != output.path && evidence != manifest && {evidence, manifest} !! {input.path, output.path}
    ensures ValidSpec(s)
  {
    Ids();
    SeatIsClean(".");
    Digests('0', '0');
    hide ValidId, ValidDigest, ValidWorkingDirectory, Digest, ValidSpec, PlainFile, Segment;
    TwoDistinct(s.inputs + s.outputs, RunnerPath);
    PlainSpecValid(s);
  }

  lemma FileFits(name: string, c: char, path: string, output: bool)
    requires ValidId(name) && LowerHex(c) && (path == Digest(c) || (path == "in" && !output))
    ensures PlainFile(At(File(name, c), path), output)
  {
    Digests(c, c);
    DigestSegment(Digest(c));
    hide ValidId, ValidDigest, Digest;
  }

  lemma ShortSegments()
    ensures Segment("e") && Segment("m") && Segment("f") && Segment("n")
  {
  }

  lemma MakerValid()
    ensures ValidSpec(MakerSpec())
  {
    hide SpecOf, FactsOf, ValidId, ValidDigest, Digest, ValidSpec, MakerSpec, UserSpec, PlainFile, Segment,
         BindsExactly, File;
    Specs();
    Ids();
    Digests('1', '2');
    ShortSegments();
    FileFits("x", '0', "in", false);
    FileFits("y", '1', Digest('1'), true);
    OneFileEach(MakerSpec(), "maker", At(File("x", '0'), "in"), At(File("y", '1'), Digest('1')), "e", "m");
  }

  lemma UserValid()
    ensures ValidSpec(UserSpec())
  {
    hide SpecOf, FactsOf, ValidId, ValidDigest, Digest, ValidSpec, MakerSpec, UserSpec, PlainFile, Segment,
         BindsExactly, File;
    Specs();
    Ids();
    Digests('1', '2');
    Digests('2', '1');
    ShortSegments();
    FileFits("y", '1', Digest('1'), false);
    FileFits("z", '2', Digest('2'), true);
    OneFileEach(UserSpec(), "user", At(File("y", '1'), Digest('1')), At(File("z", '2'), Digest('2')), "f", "n");
  }

  lemma CircleHosted()
    ensures forall t :: t in Circle().tasks ==> Hosted(Circle(), IndexBy(CircleBinding().tasks, BindingId), map[], t)
  {
    Indexes();
    Specs();
    MakerValid();
    UserValid();
    hide IndexBy, ValidSpec, BindsExactly, FactsOf, SpecOf, Digest;
  }

  lemma TwoTidy(s: RunnerSpec, a: RunnerArtifact, b: RunnerArtifact)
    requires AllArtifacts(s) == [a, b] && a.path != b.path && RuntimePaths(s) !! {a.path, b.path}
    requires s.evidenceDirectory != s.commitManifestPath
    ensures Tidy(s) && SpecPaths(s) == {a.path, b.path} + RuntimePaths(s)
  {
    hide RuntimePaths;
    TwoDistinct(AllArtifacts(s), RunnerPath);
  }

  /** Two specs that have one artifact in common, at the one path they share. */
  lemma OneShared(s: RunnerSpec, t: RunnerSpec, a: RunnerArtifact, shared: RunnerArtifact, b: RunnerArtifact)
    requires AllArtifacts(s) == [a, shared] && AllArtifacts(t) == [shared, b] && a.path != shared.path
    requires {a.path} + RuntimePaths(s) !! {shared.path, b.path} + RuntimePaths(t)
    requires b.path !in {a.path, shared.path} && shared.path !in RuntimePaths(t)
    ensures Compatible(s, t)
  {
    hide RuntimePaths, AllArtifacts;
    forall p, c, d | Demands(s, p, c) && Demands(t, p, d) ensures c == d && c.ByArtifact? {
      if c.ByArtifact? {
        var x :| x in AllArtifacts(s) && x.path == p && Portable(x) == c.identity;
      }
      if d.ByArtifact? {
        var y :| y in AllArtifacts(t) && y.path == p && Portable(y) == d.identity;
      }
    }
  }

  lemma BareSpecsAre()
    ensures var x, y, z := At(File("x", '0'), "in"), At(File("y", '1'), Digest('1')), At(File("z", '2'), Digest('2'));
            AllArtifacts(Bare(MakerSpec())) == [BareArtifact(x), BareArtifact(y)] &&
            AllArtifacts(Bare(UserSpec())) == [BareArtifact(y), BareArtifact(z)]
    ensures Bare(MakerSpec()).evidenceDirectory == "e" && Bare(MakerSpec()).commitManifestPath == "m"
    ensures Bare(UserSpec()).evidenceDirectory == "f" && Bare(UserSpec()).commitManifestPath == "n"
  {
    Specs();
    hide MakerSpec, UserSpec, SpecOf, FactsOf, Digest, BindsExactly, File, At, BareArtifact;
  }

  lemma CirclePathsApart()
    ensures Tidy(Bare(MakerSpec())) && Tidy(Bare(UserSpec())) && Compatible(Bare(MakerSpec()), Bare(UserSpec()))
    ensures forall p :: p in SpecPaths(Bare(MakerSpec())) + SpecPaths(Bare(UserSpec())) ==> '/' !in p
  {
    BareSpecsAre();
    Digests('1', '2');
    Digests('2', '1');
    hide MakerSpec, UserSpec, Digest, ValidDigest, Bare, AllArtifacts, File;
    ApartByPath(Bare(MakerSpec()), Bare(UserSpec()), BareArtifact(At(File("x", '0'), "in")),
                BareArtifact(At(File("y", '1'), Digest('1'))), BareArtifact(At(File("z", '2'), Digest('2'))));
  }

  lemma ApartByPath(m: RunnerSpec, u: RunnerSpec, x: RunnerArtifact, y: RunnerArtifact, z: RunnerArtifact)
    requires AllArtifacts(m) == [x, y] && AllArtifacts(u) == [y, z]
    requires m.evidenceDirectory == "e" && m.commitManifestPath == "m"
    requires u.evidenceDirectory == "f" && u.commitManifestPath == "n"
    requires x.path == "in" && |y.path| == |z.path| == 64 && y.path != z.path && '/' !in y.path && '/' !in z.path
    ensures Tidy(m) && Tidy(u) && Compatible(m, u)
    ensures forall p :: p in SpecPaths(m) + SpecPaths(u) ==> '/' !in p
  {
    hide Tidy, Compatible, SpecPaths, AllArtifacts;
    TwoTidy(m, x, y);
    TwoTidy(u, y, z);
    OneShared(m, u, x, y, z);
  }

  lemma CirclePaths()
    ensures PathsMix(Circle(), Table(CircleBinding()))
  {
    Indexes();
    SortedTasks();
    hide IndexBy, Digest, FactsOf, SpecOf, Bare, Tidy, Compatible;
    CirclePathsApart();
    var specs := BareSpecs(Circle(), IndexBy(Circle().matrix, RowTask), Table(CircleBinding()),
                           SortBy(Circle().tasks, TaskId));
    assert specs == [Bare(MakerSpec()), Bare(UserSpec())];
    SegmentsApart(PathsOf(specs));
  }

  lemma SortedTasks()
    ensures SortBy(Circle().tasks, TaskId) == [Maker(), User()]
  {
    assert "maker"[0] == 'm' && "user"[0] == 'u' && StrLe("maker", "user");
    assert Circle().tasks[1..] == [User()] && [User()][1..] == [];
    assert SortBy([User()], TaskId) == [User()];
  }

  lemma ChainOutputs(first: MatrixEntry, second: MatrixEntry, y: Artifact, z: Artifact)
    requires first.outputs == [y] && second.outputs == [z] && Identity(y) != Identity(z)
    ensures var outputs := Outputs([first, second]);
            Distinct(outputs, OutputId) && ProducerMap(outputs).Keys == {Identity(y), Identity(z)}
  {
    hide Identity;
    var rows, outputs := [first, second], Outputs([first, second]);
    assert rows[..1] == [first] && [first][..0] == [];
    assert OutputsOf(first) == [Output(Identity(y), first.task)] &&
      OutputsOf(second) == [Output(Identity(z), second.task)];
    assert outputs == Outputs([first]) + OutputsOf(second) == OutputsOf(first) + OutputsOf(second);
    TwoDistinct(outputs, OutputId);
  }

  /** One row makes what the next takes. */
  lemma ChainWirable(first: MatrixEntry, second: MatrixEntry, x: Artifact, y: Artifact, z: Artifact, initial: Initial)
    requires first.inputs == [x] && first.outputs == [y] && second.inputs == [y] && second.outputs == [z]
    requires Identity(x) != Identity(y) && Identity(y) != Identity(z) && Identity(x) != Identity(z)
    requires InitialId(initial) == Identity(x)
    ensures Wirable([first, second], [initial])
  {
    hide Identity, IndexBy, Distinct, KeySet, InitialId, Outputs, ProducerMap;
    var rows := [first, second];
    ChainOutputs(first, second, y, z);
    OneKeyed(initial, InitialId);
    var producers := ProducerMap(Outputs(rows));
    forall row | row in rows ensures row == first || row == second { }
    assert first in rows && x in first.inputs;
    assert Roots(producers, rows) == {Identity(x)};
  }

  lemma CircleWirable()
    ensures Wirable(Circle().matrix, Stored())
  {
    Ids();
    Digests('0', '1');
    Digests('1', '2');
    StoredIdentity();
    hide Digest, Identity, ValidId, ValidDigest, Wirable;
    var x, y, z := File("x", '0'), File("y", '1'), File("z", '2');
    IdentityInjective(x, y);
    IdentityInjective(y, z);
    IdentityInjective(x, z);
    ChainWirable(MakerRow(), UserRow(), x, y, z, Stored()[0]);
  }

  lemma StoredIdentity()
    ensures InitialId(Stored()[0]) == Identity(File("x", '0'))
  {
  }

  /** Mixed lowering accepts the pipeline. */
  lemma CircleAccepted(hash: Membership)
    ensures MixedLowerable(hash, Circle(), CirclePlan(), CircleBinding(), [], Stored(), Workers())
  {
    Indexes();
    CirclePlaceable(hash);
    CircleHosted();
    CirclePaths();
    CircleWirable();
    hide Placeable, PlanSuits, Hosted, PathsMix, Wirable, IndexBy, Digest;
  }

  lemma MakerFeedsUser()
    ensures Feeds(Circle(), "maker", File("y", '1'), "user")
  {
    hide Digest;
    var rows, y := Circle().matrix, File("y", '1');
    assert MakerRow() in rows && UserRow() in rows && y in MakerRow().outputs && y in UserRow().inputs;
  }

  /** A valid and accepted pipeline, without name clashes, whose tasks wait for each other: its workflow
      cannot run to the end. */
  lemma UnfedAccepted(hash: Membership)
    ensures ValidPipeline(Circle()) && Resolved(Workers()) && Workers() != [] && Distinct(Stored(), InitialId)
    ensures MixedLowerable(hash, Circle(), CirclePlan(), CircleBinding(), [], Stored(), Workers())
    ensures NamesClear(Circle().tasks) && Cyclic(WaitsFor(Circle())) && !Fed(Circle())
  {
    CircleValid();
    CircleAccepted(hash);
    MakerFeedsUser();
    TasksKnown();
    hide ValidPipeline, MixedLowerable, Cyclic, Fed, WaitsFor, Feeds, Digest, ById;
    WaitsForExact(Circle(), "user", "maker");
    WaitsForExact(Circle(), "maker", "user");
    WaitsForKnown(Circle());
    assert "user" in WaitsFor(Circle())["maker"] && "maker" in WaitsFor(Circle())["user"];
    TwoStepCycle(WaitsFor(Circle()), "maker", "user");
    if Fed(Circle()) { FedIsAcyclic(Circle()); }
    assert "maker"[0] == 'm' && "user"[0] == 'u';
  }

  /** Whatever lowering yields for it, no run gets to the end. */
  lemma CircleNeverEnds(e: Encoders, hash: Membership, d: Decision)
    requires Yields(e, Circle(), CircleBinding(), [], Stored(), d)
    ensures forall full :: MixedRuns(d, full) ==> !RunsAll(Circle(), full)
  {
    hide Yields, MixedRuns, RunsAll, Cyclic, WaitsFor;
    UnfedAccepted(hash);
    RunsToTheEnd(e, Circle(), CircleBinding(), [], Stored(), d);
  }

  lemma TwoStepCycle(needs: Graph<string>, a: string, b: string)
    requires a in needs && b in needs && b in needs[a] && a in needs[b]
    ensures Cyclic(needs)
  {
    assert WalkFromTo(needs, [a, b, a], a, a);
    assert Reaches(needs, a, a);
  }
}
