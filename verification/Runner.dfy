/** ExecuteTask from end to end, its evidence record, and campaigns of stopped and repeated runs. */
module Runner {
  import opened Order
  import opened Paths
  import opened Contract
  import opened RunnerSpecs
  import opened FileSystem
  import opened Evidence
  import opened Workspaces
  import opened RunStates
  import opened ChildEnvironment
  import opened Preparation
  import opened Children
  import opened Publication
  import opened Records

  datatype Metadata = Metadata(node: string, uid: string)

  /** What one run draws from its surroundings: two random names, two readings of the clock, and PATH. */
  datatype Chances = Chances(stageNonce: string, evidenceNonce: string, started: string, finished: string, path: string)

  /** How a run wants to finish: without evidence, or with this class, exit code and commit. */
  datatype Report = NoEvidence | Report(result: string, exitCode: int, commit: Option<OutputCommit>)

  datatype Outcome = Failed | Finished(run: Run)

  predicate Dash(i: nat) { i == 8 || i == 13 || i == 18 || i == 23 }

  /** A lower-case Kubernetes UUID. */
  predicate PodUid(s: string) {
    |s| == 36 && forall i :: 0 <= i < |s| ==> if Dash(i) then s[i] == '-' else LowerHex(s[i])
  }

  // ----- the record -----

  function NewRun(m: Machine, spec: RunnerSpec, meta: Metadata, started: string): Run {
    Run(RUN_V2, spec.pipeline, spec.task, "pod-" + meta.uid, spec.source, Map(Portable, spec.inputs),
        Executor(meta.node, spec.platform.backend, spec.platform.os, spec.platform.arch), "", None,
        PortableOutputs(spec), None, started, started, m.trace(meta.uid))
  }

  function Concluded(run: Run, report: Report, now: string): Run
    requires report.Report?
  {
    run.(result := report.result, exitCode := Some(report.exitCode), outputCommit := report.commit, finishedAt := now)
  }

  /** The clock writes UTC and did not go back; trace ids and digests are well formed. */
  ghost predicate Sane(m: Machine, uid: string, chances: Chances) {
    UtcInstant(m.codec, chances.started) && UtcInstant(m.codec, chances.finished) &&
    m.codec.instant(chances.started).value <= m.codec.instant(chances.finished).value &&
    ValidTrace(m.trace(uid)) && forall s :: ValidDigest(m.codec.sha256(s))
  }

  /** What every report of a run satisfies. */
  predicate Reported(m: Machine, spec: RunnerSpec, report: Report) {
    report.Report? ==>
      ValidResult(report.result, Some(report.exitCode)) &&
      report.commit == if report.result == PASS then Some(CommitOf(m.codec, PortableOutputs(spec))) else None
  }

  lemma UidIsId(uid: string)
    requires PodUid(uid)
    ensures ValidId("pod-" + uid)
  {
    var id := "pod-" + uid;
    forall c | c in id ensures Letter(c) || Digit(c) || c in "._/-" {
      var i :| 0 <= i < |id| && id[i] == c;
      if i >= 4 { assert id[i] == uid[i - 4]; }
    }
  }

  lemma NodeFine(node: string)
    requires KubeName(node)
    ensures !Blank(node) && '\0' !in node
  {
    assert node[0] in node;
  }

  function RecordOf(m: Machine, spec: RunnerSpec, meta: Metadata, chances: Chances, report: Report): Run
    requires report.Report?
  {
    Concluded(NewRun(m, spec, meta, chances.started), report, chances.finished)
  }

  /** On a sane machine every report makes a valid record, so MarshalRun accepts it. */
  lemma RecordValid(m: Machine, spec: RunnerSpec, meta: Metadata, chances: Chances, report: Report)
    requires ValidSpec(spec) && KubeName(meta.node) && PodUid(meta.uid) && Sane(m, meta.uid, chances)
    requires report.Report? && Reported(m, spec, report)
    ensures ValidRun(m.codec, RecordOf(m, spec, meta, chances, report))
  {
    hide ValidArtifacts, UtcInstant, ValidTrace, ValidDigest, PodUid, KubeName, ValidSource, ValidId, Blank,
         ValidPlatform, CommitOf;
    UidIsId(meta.uid);
    NodeFine(meta.node);
    SpecParts(spec);
    CommitDigest(m.codec, PortableOutputs(spec));
  }

  lemma CommitDigest(c: Codec, outputs: seq<Artifact>)
    requires forall s :: ValidDigest(c.sha256(s))
    ensures ValidDigest(CommitOf(c, outputs).sha256)
  {
  }

  lemma SpecParts(spec: RunnerSpec)
    requires ValidSpec(spec)
    ensures ValidId(spec.pipeline) && ValidId(spec.task) && ValidSource(spec.source) && ValidPlatform(spec.platform)
    ensures ValidArtifacts(Map(Portable, spec.inputs), RUN_V2) && ValidArtifacts(PortableOutputs(spec), RUN_V2)
    ensures spec.nonzeroClass in {TEST_FAIL, INFRA_FAIL} && Distinct(spec.outputs, RunnerName)
  {
  }

  // ----- before staging -----

  /** The path has no file among its ancestors, and is there unless it may be missing. */
  predicate PathFits(fs: Fs, p: Path, allowMissing: bool) { !Blocked(fs, p) && (allowMissing || p in fs.names) }

  ghost predicate ArtifactsFit(fs: Fs, s: seq<RunnerArtifact>, allowMissing: bool) {
    forall a :: a in s ==> PathFits(fs, Split(a.path), allowMissing)
  }

  /** Inputs and the working directory are there; the paths to be written can be reached. */
  ghost predicate PathsFit(fs: Fs, spec: RunnerSpec) {
    PathFits(fs, WorkingDirectory(spec), false) && ArtifactsFit(fs, spec.inputs, false) &&
    ArtifactsFit(fs, spec.outputs, true) &&
    PathFits(fs, EvidenceDirectory(spec), true) && PathFits(fs, ManifestPath(spec), true)
  }

  /** One loop of validateRunnerWorkspacePaths. */
  method CheckArtifactPaths(root: Workspace, s: seq<RunnerArtifact>, allowMissing: bool) returns (ok: bool)
    requires root.Valid()
    modifies root`clock
    ensures root.Valid() && (ok ==> ArtifactsFit(root.fs, s, allowMissing))
    ensures Healthy(root.machine) && ArtifactsFit(root.fs, s, allowMissing) ==> ok
  {
    hide WellFormed, Blocked, Healthy;
    for i := 0 to |s|
      invariant root.Valid() && forall k :: 0 <= k < i ==> PathFits(root.fs, Split(s[k].path), allowMissing)
    {
      assert s[i] in s;
      ok := root.CheckPath(Split(s[i].path), allowMissing);
      if !ok { return; }
    }
    ok := true;
  }

  /** validateRunnerWorkspacePaths. */
  method CheckWorkspacePaths(root: Workspace, spec: RunnerSpec) returns (ok: bool)
    requires root.Valid()
    modifies root`clock
    ensures root.Valid() && (ok ==> PathsFit(root.fs, spec))
    ensures Healthy(root.machine) && PathsFit(root.fs, spec) ==> ok
  {
    hide WellFormed, Blocked, Healthy, ArtifactsFit, WorkingDirectory, EvidenceDirectory, ManifestPath, Split;
    ok := root.CheckPath(WorkingDirectory(spec), false);
    if !ok { return; }
    ok := CheckArtifactPaths(root, spec.inputs, false);
    if !ok { return; }
    ok := CheckArtifactPaths(root, spec.outputs, true);
    if !ok { return; }
    ok := root.CheckPath(EvidenceDirectory(spec), true);
    if !ok { return; }
    ok := root.CheckPath(ManifestPath(spec), true);
  }

  lemma ResumablePathsFit(m: Machine, fs: Fs, spec: RunnerSpec)
    requires Resumable(m, fs, spec)
    ensures PathsFit(fs, spec)
  {
    hide WellFormed, Blocked, DigestAt;
    AncestorsPresent(fs, WorkingDirectory(spec));
    forall a | a in spec.inputs ensures PathFits(fs, Split(a.path), false) {
      assert Matches(m, fs, a);
      SealIsThere(m, fs, a.kind, Split(a.path));
      AncestorsPresent(fs, Split(a.path));
    }
    forall a | a in spec.outputs ensures PathFits(fs, Split(a.path), true) { assert OutputFine(m, fs, a); }
  }

  /** createRunnerStaging: the new stage is empty and not above the working directory. */
  method CreateStaging(root: Workspace, spec: RunnerSpec, uid: string, nonce: string) returns (ok: bool)
    requires root.Valid() && Others(root.reserved, spec, StagePath(uid, nonce)) && Layout(spec)
    requires WorkingDirectory(spec) in root.fs.names
    modifies root`clock, root`fs, root`history
    ensures Quieted(root, spec) && EvidenceKept(old(root.fs), root.fs, spec)
    ensures ok ==> Staging(StagePath(uid, nonce), spec) && EmptyStage(root.fs, StagePath(uid, nonce))
    ensures Healthy(root.machine) && !IsFile(old(root.fs), [STAGING]) &&
            StagePath(uid, nonce) !in old(root.fs.names) ==>
      ok
  {
    hide WellFormed, Frame, Trace, Quiet, QuietTrace, Layout, EvidenceKept, Blocked, CanAdd, EmptyStage, IsFile;
    ghost var base, from, flags := root.fs, |root.history|, Flags(root.linked, root.recorded);
    var stage := StagePath(uid, nonce);
    NotBlocked(root.fs);
    ok := MakeDirectory(root, [STAGING]);
    StagingIsQuiet(base, root.fs, root.history, from, flags, spec);
    if !ok { return; }
    ghost var mid, before := root.fs, root.history;
    StageRoom(base, mid, stage);
    if stage !in mid.names {
      FreshStage(base, mid, stage, spec);
      RootInStage(mid, spec, stage, stage);
    }
    ok := root.Mkdir(stage);
    if ok {
      HarmlessTrace(mid, root.fs, root.history, |before|, flags, {stage}, {}, spec);
      FrameEvidence(mid, root.fs, {stage}, {}, spec);
      StageIsEmpty(mid, stage);
    } else {
      QuietStart(mid, root.history, flags, spec);
    }
    QuietThen(base, mid, root.fs, before, root.history, from, flags, spec);
    EvidenceTransitive(base, mid, root.fs, spec);
  }

  lemma NotBlocked(fs: Fs)
    requires WellFormed(fs)
    ensures !Blocked(fs, [STAGING])
  {
    assert [STAGING][..0] == [];
  }

  lemma StagingIsQuiet(base: Fs, now: Fs, history: seq<Moment>, from: nat, flags: Flags, spec: RunnerSpec)
    requires WellFormed(base) && Layout(spec)
    requires Trace(base, history, from, flags, {}, {[STAGING]}) && Frame(base, now, {}, {[STAGING]})
    ensures QuietTrace(base, history, from, flags, spec) && Quiet(base, now, spec) && EvidenceKept(base, now, spec)
  {
    assert Apart(EvidenceDirectory(spec), [STAGING]);
    FrameEvidence(base, now, {}, {[STAGING]}, spec);
    HarmlessTrace(base, now, history, from, flags, {}, {[STAGING]}, spec);
  }

  lemma StageRoom(a: Fs, b: Fs, stage: Path)
    requires Frame(a, b, {}, {[STAGING]}) && IsDir(b, [STAGING]) && |stage| == 2 && stage[0] == STAGING
    ensures stage !in a.names ==> CanAdd(b, stage)
    ensures CanAdd(b, stage) ==> stage !in b.names
  {
    assert Parent(stage) == [STAGING] && !Under(stage, {});
  }

  lemma FreshStage(a: Fs, b: Fs, stage: Path, spec: RunnerSpec)
    requires Frame(a, b, {}, {[STAGING]}) && WellFormed(a) && WorkingDirectory(spec) in a.names
    requires |stage| == 2 && stage[0] == STAGING && stage !in b.names
    ensures Staging(stage, spec)
  {
    assert !Under(stage, {});
    if stage <= WorkingDirectory(spec) { NothingBelow(a, stage, WorkingDirectory(spec)); }
  }

  lemma StageIsEmpty(fs: Fs, stage: Path)
    requires WellFormed(fs) && CanAdd(fs, stage)
    ensures EmptyStage(AddDir(fs, stage), stage)
  {
    forall q | q in AddDir(fs, stage).names && stage <= q ensures q == stage {
      if q != stage { NothingBelow(fs, stage, q); }
    }
  }

  // ----- preparation and publication as phases -----

  /** The hypotheses under which a run cannot be stopped before its child. */
  ghost predicate Ready(m: Machine, fs: Fs, spec: RunnerSpec, stage: Path, uid: string) {
    Resumable(m, fs, spec) && EmptyStage(fs, stage) && EvidencePath(spec, uid) !in fs.names && NamesApart(spec)
  }

  /** Everything from the staging directory to the child. */
  method PrepareRun(root: Workspace, spec: RunnerSpec, uid: string, stage: Path, path: string)
    returns (status: Status, pre: map<string, bool>, existed: bool, outputStage: map<string, Path>)
    requires root.Valid() && Others(root.reserved, spec, stage) && ValidSpec(spec) && Layout(spec)
    requires Staging(stage, spec)
    modifies root`clock, root`fs, root`history
    ensures Quieted(root, spec) && EvidenceKept(old(root.fs), root.fs, spec)
    ensures status in {Go, Infra, Abort}
    ensures status == Go ==>
      Prepared(root.machine, root.fs, spec, pre, existed) && InputsMatch(root.machine, root.fs, spec)
    ensures status == Go ==> Placed(spec, stage, outputStage) && NamesApart(spec)
    ensures Healthy(root.machine) && Ready(root.machine, old(root.fs), spec, stage, uid) ==>
      status == Go && ReadyStage(root.fs, stage)
  {
    SpecParts(spec);
    hide WellFormed, Frame, Trace, Quiet, QuietTrace, Layout, ValidSpec, EvidenceKept, Aside, Retryable, Prepared,
         InputsMatch, Placed, EmptyStage, ReadyStage, NamesApart, Bound, Staging, Distinct, EvidencePath, Healthy;
    ghost var base, from, flags := root.fs, |root.history|, Flags(root.linked, root.recorded);
    outputStage := map[];
    status, pre, existed := PrepareDestinations(root, spec, uid);
    if status != Go { return; }
    ghost var mid, before := root.fs, root.history;
    StillEmpty(base, mid, spec, stage);
    var ok, env;
    ok, env, outputStage := PrepareStage(root, spec, stage, path);
    QuietThen(base, mid, root.fs, before, root.history, from, flags, spec);
    EvidenceTransitive(base, mid, root.fs, spec);
    StagePrepared(root.machine, mid, root.fs, spec, pre, existed);
    status := if ok then Go else Abort;
  }

  lemma StillEmpty(a: Fs, b: Fs, spec: RunnerSpec, stage: Path)
    requires Aside(a, b, spec) && Staging(stage, spec)
    ensures EvidenceKept(a, b, spec) && (EmptyStage(a, stage) ==> EmptyStage(b, stage))
  {
    assert [STAGING] <= stage;
    if EmptyStage(a, stage) {
      forall q | q in b.names && stage <= q ensures q == stage { PrefixTransitive([STAGING], stage, q); }
    }
  }

  lemma StagePrepared(m: Machine, a: Fs, b: Fs, spec: RunnerSpec, pre: map<string, bool>, existed: bool)
    requires WellFormed(a) && WellFormed(b) && Quiet(a, b, spec) && Prepared(m, a, spec, pre, existed)
    requires InputsMatch(m, a, spec)
    ensures Prepared(m, b, spec, pre, existed) && InputsMatch(m, b, spec)
  {
    hide Quiet, WellFormed, Prepared, InputsMatch, OutputsMatch;
    QuietComplete(m, a, b, spec);
    QuietPrepared(m, a, b, spec, pre, existed);
  }

  ghost predicate PreNamed(spec: RunnerSpec, pre: map<string, bool>) {
    forall a :: a in spec.outputs ==> a.name in pre
  }

  lemma PreparedNamed(m: Machine, fs: Fs, spec: RunnerSpec, pre: map<string, bool>, existed: bool)
    requires Prepared(m, fs, spec, pre, existed)
    ensures PreNamed(spec, pre) && ManifestNoted(m, fs, spec, existed)
  {
    forall a | a in spec.outputs ensures a.name in pre {
      var k :| 0 <= k < |spec.outputs| && spec.outputs[k] == a;
      assert Noted(m, fs, spec.outputs[k], pre);
    }
  }

  lemma PreparedNoted(m: Machine, fs: Fs, spec: RunnerSpec, pre: map<string, bool>, existed: bool)
    requires ValidSpec(spec) && Prepared(m, fs, spec, pre, existed)
    ensures StillNoted(m, fs, spec, pre, 0)
  {
    hide ValidSpec, Noted;
    OutputsSorted(spec);
    forall j | 0 <= j < |SortedOutputs(spec)| ensures Noted(m, fs, SortedOutputs(spec)[j], pre) {
      assert SortedOutputs(spec)[j] in SortedOutputs(spec);
      var k :| 0 <= k < |spec.outputs| && spec.outputs[k] == SortedOutputs(spec)[j];
      assert Noted(m, fs, spec.outputs[k], pre);
    }
  }

  lemma SortedNamed(spec: RunnerSpec, pre: map<string, bool>)
    requires ValidSpec(spec) && PreNamed(spec, pre)
    ensures forall i :: 0 <= i < |SortedOutputs(spec)| ==> SortedOutputs(spec)[i].name in pre
  {
    hide ValidSpec;
    OutputsSorted(spec);
    forall i | 0 <= i < |SortedOutputs(spec)| ensures SortedOutputs(spec)[i].name in pre {
      assert SortedOutputs(spec)[i] in SortedOutputs(spec);
    }
  }

  /** Publishing the outputs leaves the inputs and the manifest alone. */
  lemma BesidePublished(m: Machine, a: Fs, b: Fs, spec: RunnerSpec, existed: bool)
    requires WellFormed(a) && WellFormed(b) && Layout(spec) && Beside(a, b, spec, KeySet(spec.outputs, RunnerPath))
    ensures InputsMatch(m, a, spec) ==> InputsMatch(m, b, spec)
    ensures ManifestNoted(m, a, spec, existed) ==> ManifestNoted(m, b, spec, existed)
  {
    hide WellFormed, Beside, ManifestExact, Matches;
    var touched := KeySet(spec.outputs, RunnerPath);
    forall x | x in spec.inputs ensures Matches(m, a, x) ==> Matches(m, b, x) {
      PathOfArtifact(spec, x);
      InputUntouched(spec, x);
      BesideMatches(m, a, b, spec, touched, x, map[]);
    }
    ManifestUntouched(spec);
    BesideManifest(m, a, b, spec, touched);
  }

  lemma InputUntouched(spec: RunnerSpec, x: RunnerArtifact)
    requires Layout(spec) && x in spec.inputs
    ensures x.path !in KeySet(spec.outputs, RunnerPath)
  {
    KeyIn(spec.inputs, x, RunnerPath);
    forall i | 0 <= i < |spec.outputs| ensures RunnerPath(spec.outputs[i]) != x.path {
      assert spec.outputs[i] in spec.outputs;
    }
  }

  lemma ManifestUntouched(spec: RunnerSpec)
    requires Layout(spec)
    ensures spec.commitManifestPath !in KeySet(spec.outputs, RunnerPath)
  {
    forall i | 0 <= i < |spec.outputs| ensures RunnerPath(spec.outputs[i]) != spec.commitManifestPath {
      assert spec.outputs[i] in spec.outputs;
    }
  }

  /** A stretch that ends where it began, or in a retryable state, keeps the disk retryable. */
  lemma RetryNow(m: Machine, before: seq<Moment>, history: seq<Moment>, a: Fs, b: Fs, spec: RunnerSpec)
    requires 0 < |before| && before <= history && before[|before| - 1].fs == a && history[|history| - 1].fs == b
    requires RetryTrace(m, history, |before|, spec) && Retryable(m, a, spec)
    ensures Retryable(m, b, spec)
  {
    if |history| == |before| { assert history == before; }
  }

  /** After the child: seal, publish, commit. */
  method PublishRun(root: Workspace, spec: RunnerSpec, stage: Path, outputStage: map<string, Path>,
                    pre: map<string, bool>, existed: bool)
    returns (status: Status)
    requires root.Valid() && Others(root.reserved, spec, stage) && ValidSpec(spec) && Layout(spec)
    requires Staging(stage, spec) && Placed(spec, stage, outputStage)
    requires !root.linked && root.recorded == None && InputsMatch(root.machine, root.fs, spec) && PreNamed(spec, pre)
    modifies root`clock, root`fs, root`history, root`linked, root`recorded
    ensures root.Valid() && old(root.history) <= root.history && root.recorded == None
    ensures CommitTrace(root.machine, root.history, |old(root.history)|, spec)
    ensures EvidenceKept(old(root.fs), root.fs, spec)
    ensures status == Go ==> Complete(root.machine, root.fs, spec) && (!existed ==> root.linked)
    ensures Retryable(root.machine, old(root.fs), spec) && Prepared(root.machine, old(root.fs), spec, pre, existed) ==>
      RetryTrace(root.machine, root.history, |old(root.history)|, spec)
    ensures status == Go ==> AllStaged(root.machine, old(root.fs), spec, stage)
    ensures Healthy(root.machine) && Prepared(root.machine, old(root.fs), spec, pre, existed) &&
            SealReady(old(root.fs), stage) ==>
      status == (if AllStaged(root.machine, old(root.fs), spec, stage) then Go else Incomplete)
  {
    hide WellFormed, Frame, Trace, Quiet, QuietTrace, FlagTrace, CommitTrace, RetryTrace, Layout, ValidSpec, Staging,
         Placed, EvidenceKept, OutputsMatch, InputsMatch, ManifestExact, Retryable, Prepared, PreNamed, ManifestNoted,
         StillNoted, SealReady, AllStaged, SealedBetween, SealedRight, Room, ManifestRoom, Beside, Sealed;
    ghost var base, from, m := root.fs, |root.history|, root.machine;
    ghost var calm := Retryable(m, base, spec) && Prepared(m, base, spec, pre, existed);
    SortedNamed(spec, pre);
    var sealed;
    status, sealed := Seal(root, spec, stage, outputStage);
    ghost var s1, h1 := root.fs, root.history;
    SealedStretch(m, base, s1, h1, from, spec, pre, existed);
    if status != Go { return; }

    var ok := Publish(root, spec, stage, sealed, pre);
    ghost var s2, h2 := root.fs, root.history;
    PublishedStretch(m, s1, s2, h1, h2, from, spec, existed, calm);
    EvidenceTransitive(base, s1, s2, spec);
    if !ok { return Infra; }

    if Room(s1, stage, |SortedOutputs(spec)|) { RoomIsRoom(s1, s2, stage, |SortedOutputs(spec)|); }
    CommitIsReady(m, s2, spec, stage, existed);
    status := CommitOutputs(root, spec, stage, existed);
    CommitJoin(m, h2, root.history, from, spec);
    EvidenceTransitive(base, s2, root.fs, spec);
    if calm { RetryJoin(m, h2, root.history, from, spec); }
  }

  lemma CommitIsReady(m: Machine, fs: Fs, spec: RunnerSpec, stage: Path, existed: bool)
    ensures ManifestNoted(m, fs, spec, existed) && ManifestRoom(fs, stage) ==> CommitReady(m, fs, spec, stage, existed)
  {
  }

  lemma RoomIsRoom(a: Fs, b: Fs, stage: Path, i: nat)
    requires Room(a, stage, i) && (ManifestRoom(a, stage) ==> ManifestRoom(b, stage))
    ensures ManifestRoom(b, stage)
  {
  }

  /** What the sealing stretch hands on. */
  lemma SealedStretch(m: Machine, a: Fs, b: Fs, history: seq<Moment>, from: nat, spec: RunnerSpec,
                      pre: map<string, bool>, existed: bool)
    requires ValidSpec(spec) && WellFormed(a) && WellFormed(b) && Quiet(a, b, spec)
    requires QuietTrace(a, history, from, Flags(false, None), spec)
    ensures CommitTrace(m, history, from, spec)
    ensures InputsMatch(m, a, spec) ==> InputsMatch(m, b, spec)
    ensures Retryable(m, a, spec) ==> Retryable(m, b, spec) && RetryTrace(m, history, from, spec)
    ensures Prepared(m, a, spec, pre, existed) ==> StillNoted(m, b, spec, pre, 0) && ManifestNoted(m, b, spec, existed)
  {
    hide WellFormed, Quiet, QuietTrace, OutputsMatch, InputsMatch, ManifestExact, Retryable, ManifestNoted, ValidSpec,
         Prepared, StillNoted, CommitTrace, RetryTrace;
    QuietCommit(m, a, b, history, from, spec, existed);
    if Prepared(m, a, spec, pre, existed) {
      QuietPrepared(m, a, b, spec, pre, existed);
      PreparedNamed(m, b, spec, pre, existed);
      PreparedNoted(m, b, spec, pre, existed);
    }
  }

  /** What the publishing stretch hands on. */
  lemma PublishedStretch(m: Machine, a: Fs, b: Fs, before: seq<Moment>, history: seq<Moment>, from: nat,
                         spec: RunnerSpec, existed: bool, calm: bool)
    requires WellFormed(a) && WellFormed(b) && Layout(spec) && Beside(a, b, spec, KeySet(spec.outputs, RunnerPath))
    requires 0 < |before| && before <= history && before[|before| - 1].fs == a && history[|history| - 1].fs == b
    requires CommitTrace(m, before, from, spec) && FlagTrace(history, |before|, Flags(false, None))
    requires calm ==>
      Retryable(m, a, spec) && RetryTrace(m, before, from, spec) && RetryTrace(m, history, |before|, spec)
    ensures CommitTrace(m, history, from, spec)
    ensures InputsMatch(m, a, spec) ==> InputsMatch(m, b, spec)
    ensures ManifestNoted(m, a, spec, existed) ==> ManifestNoted(m, b, spec, existed)
    ensures calm ==> Retryable(m, b, spec) && RetryTrace(m, history, from, spec)
  {
    hide WellFormed, Layout, Beside, FlagTrace, CommitTrace, RetryTrace, Retryable, InputsMatch, ManifestNoted;
    FlagsCommit(m, history, |before|, spec);
    CommitJoin(m, before, history, from, spec);
    BesidePublished(m, a, b, spec, existed);
    if calm {
      RetryNow(m, before, history, a, b, spec);
      RetryJoin(m, before, history, from, spec);
    }
  }

  function ReportOf(m: Machine, spec: RunnerSpec, status: Status): Report {
    match status
    case Go => Report(PASS, 0, Some(CommitOf(m.codec, PortableOutputs(spec))))
    case Infra => Report(INFRA_FAIL, 70, None)
    case Incomplete => Report(INCOMPLETE, 0, None)
    case Abort => NoEvidence
  }

  lemma QuietStretch(m: Machine, a: Fs, b: Fs, history: seq<Moment>, from: nat, spec: RunnerSpec)
    requires WellFormed(a) && WellFormed(b) && Quiet(a, b, spec)
    requires QuietTrace(a, history, from, Flags(false, None), spec)
    ensures CommitTrace(m, history, from, spec)
    ensures InputsMatch(m, a, spec) ==> InputsMatch(m, b, spec)
    ensures Retryable(m, a, spec) ==> Retryable(m, b, spec) && RetryTrace(m, history, from, spec)
  {
    hide WellFormed, Quiet, QuietTrace, InputsMatch, Retryable, ManifestNoted, CommitTrace, RetryTrace;
    QuietCommit(m, a, b, history, from, spec, false);
  }

  /** Whatever the child wrote, no flag moved; a tame child changed nothing the spec names. */
  lemma ChildStretch(m: Machine, a: Fs, b: Fs, before: seq<Moment>, history: seq<Moment>, from: nat, spec: RunnerSpec,
                     pre: map<string, bool>, existed: bool, tame: bool)
    requires before <= history && CommitTrace(m, before, from, spec) && FlagTrace(history, |before|, Flags(false, None))
    requires tame ==>
      WellFormed(a) && WellFormed(b) && Quiet(a, b, spec) && QuietTrace(a, history, |before|, Flags(false, None), spec)
    ensures CommitTrace(m, history, from, spec)
    ensures tame && InputsMatch(m, a, spec) ==> InputsMatch(m, b, spec)
    ensures tame && Prepared(m, a, spec, pre, existed) ==> Prepared(m, b, spec, pre, existed)
    ensures tame && Retryable(m, a, spec) && RetryTrace(m, before, from, spec) ==>
      Retryable(m, b, spec) && RetryTrace(m, history, from, spec)
  {
    hide WellFormed, Quiet, QuietTrace, FlagTrace, InputsMatch, Prepared, Retryable, CommitTrace, RetryTrace;
    FlagsCommit(m, history, |before|, spec);
    CommitJoin(m, before, history, from, spec);
    if tame {
      QuietStretch(m, a, b, history, |before|, spec);
      if Prepared(m, a, spec, pre, existed) { QuietPrepared(m, a, b, spec, pre, existed); }
      if Retryable(m, a, spec) && RetryTrace(m, before, from, spec) { RetryJoin(m, before, history, from, spec); }
    }
  }

  /** What a run should report, given where its child started. */
  ghost function Expected(m: Machine, spec: RunnerSpec, child: Child, fs: Fs, stage: Path, ctx: Context): (r: Report)
    ensures r.Report?
  {
    var b := child(fs, stage);
    match Classify(spec, b.exit, ctx.after)
    case Stop(result, exitCode) => Report(result, exitCode, None)
    case Proceed => ReportOf(m, spec, if AllStaged(m, Final(fs, b.states), spec, stage) then Go else Incomplete)
  }

  /** Some clean child exit stands behind a pass: it left every output staged as declared. */
  ghost predicate ChildPassed(m: Machine, spec: RunnerSpec, child: Child, fs: Fs, stage: Path, ctx: Context) {
    Classify(spec, child(fs, stage).exit, ctx.after) == Proceed &&
    AllStaged(m, Final(fs, child(fs, stage).states), spec, stage)
  }

  lemma ExpectedStop(m: Machine, spec: RunnerSpec, child: Child, fs: Fs, stage: Path, ctx: Context)
    ensures var v := Classify(spec, child(fs, stage).exit, ctx.after);
            Expected(m, spec, child, fs, stage, ctx) ==
              if v.Stop? then StopReport(v)
              else ReportOf(m, spec, if AllStaged(m, Final(fs, child(fs, stage).states), spec, stage) then Go
                            else Incomplete)
  {
    hide Classify, ReportOf, AllStaged, Final;
  }

  /** The child, and what follows from it. */
  method RunAndPublish(root: Workspace, spec: RunnerSpec, stage: Path, outputStage: map<string, Path>,
                       pre: map<string, bool>, existed: bool, child: Child, ctx: Context)
    returns (report: Report, ghost launched: Option<Fs>)
    requires root.Valid() && Undisturbing(root.reserved, spec, stage, child) && ValidSpec(spec) && Layout(spec)
    requires Staging(stage, spec) && Physical(child) && Placed(spec, stage, outputStage)
    requires !root.linked && root.recorded == None && PreNamed(spec, pre)
    modifies root`clock, root`fs, root`history, root`linked, root`recorded
    ensures root.Valid() && old(root.history) <= root.history && root.recorded == None
    ensures CommitTrace(root.machine, root.history, |old(root.history)|, spec) && Reported(root.machine, spec, report)
    ensures launched == None || launched == Some(old(root.fs))
    ensures report.Report? && report.result == PASS ==>
      Complete(root.machine, root.fs, spec) && launched.Some? &&
      ChildPassed(root.machine, spec, child, old(root.fs), stage, ctx)
    ensures launched.Some? && Classify(spec, child(old(root.fs), stage).exit, ctx.after).Stop? ==>
      report == Expected(root.machine, spec, child, old(root.fs), stage, ctx)
    ensures Tame(child) ==> EvidenceKept(old(root.fs), root.fs, spec)
    ensures Tame(child) && Retryable(root.machine, old(root.fs), spec) &&
            Prepared(root.machine, old(root.fs), spec, pre, existed) ==>
      RetryTrace(root.machine, root.history, |old(root.history)|, spec)
    ensures launched == None ==> root.fs == old(root.fs) && root.history == old(root.history)
    ensures launched.Some? ==> Seated(old(root.fs), spec)
    ensures Healthy(root.machine) && !ctx.before ==>
      (if Seated(old(root.fs), spec) then launched.Some? else report == StopReport(NotStarted(ctx)))
    ensures Healthy(root.machine) && Tame(child) && !ctx.before && Seated(old(root.fs), spec) ==>
      ReadyStage(old(root.fs), stage) && InputsMatch(root.machine, old(root.fs), spec) &&
      Prepared(root.machine, old(root.fs), spec, pre, existed) ==>
      report == Expected(root.machine, spec, child, old(root.fs), stage, ctx)
  {
    SpecParts(spec);
    hide WellFormed, Frame, Trace, Quiet, QuietTrace, FlagTrace, CommitTrace, RetryTrace, Layout, ValidSpec, Staging,
         Placed, EvidenceKept, OutputsMatch, InputsMatch, ManifestExact, Retryable, Prepared, PreNamed, SealReady,
         AllStaged, ReadyStage, Physical, Tame, Classify, Final, Complete, ValidResult, Reported, ReportOf, StopReport,
         Expected, Healthy, Distinct, PortableOutputs, Seated;
    ghost var base, from, m := root.fs, |root.history|, root.machine;
    ResultsValid(m, spec);
    ExpectedStop(m, spec, child, base, stage, ctx);
    NothingYet(m, base, root.history, spec);
    var verdict;
    verdict, launched := RunChild(root, spec, stage, child, ctx);
    ghost var mid, before := root.fs, root.history;
    ChildStretch(m, base, mid, old(root.history), before, from, spec, pre, existed, Tame(child));
    if verdict.Stop? {
      StopsShort(m, spec, verdict);
      return StopReport(verdict), launched;
    }

    var status := PublishRun(root, spec, stage, outputStage, pre, existed);
    CommitJoin(m, before, root.history, from, spec);
    EvidenceStretch(base, mid, root.fs, spec, Tame(child));
    if Tame(child) && Retryable(m, base, spec) && Prepared(m, base, spec, pre, existed) {
      RetryJoin(m, before, root.history, from, spec);
    }
    PassOnly(m, spec, status);
    report := ReportOf(root.machine, spec, status);
  }

  lemma StopsShort(m: Machine, spec: RunnerSpec, verdict: Verdict)
    requires spec.nonzeroClass in {TEST_FAIL, INFRA_FAIL} && verdict.Stop?
    requires verdict.result in {CANCELED, INFRA_FAIL, spec.nonzeroClass}
    requires ValidResult(verdict.result, Some(verdict.exitCode))
    ensures Reported(m, spec, StopReport(verdict)) && StopReport(verdict).Report? && StopReport(verdict).result != PASS
  {
    hide ValidResult;
  }

  lemma PassOnly(m: Machine, spec: RunnerSpec, status: Status)
    ensures ReportOf(m, spec, status).Report? && ReportOf(m, spec, status).result == PASS ==> status == Go
  {
  }

  function StopReport(verdict: Verdict): (r: Report)
    requires verdict.Stop?
    ensures r.Report?
  {
    Report(verdict.result, verdict.exitCode, None)
  }

  lemma NothingYet(m: Machine, fs: Fs, history: seq<Moment>, spec: RunnerSpec)
    ensures CommitTrace(m, history, |history|, spec) && RetryTrace(m, history, |history|, spec)
    ensures EvidenceKept(fs, fs, spec)
  {
  }

  /** ExecuteTask between making the stage and writing the evidence. */
  method RunStaged(root: Workspace, spec: RunnerSpec, uid: string, stage: Path, path: string, child: Child,
                   ctx: Context)
    returns (report: Report, ghost launched: Option<Fs>)
    requires root.Valid() && Undisturbing(root.reserved, spec, stage, child) && ValidSpec(spec) && Layout(spec)
    requires Staging(stage, spec) && Physical(child)
    requires !root.linked && root.recorded == None && WorkingDirectory(spec) in root.fs.names
    modifies root`clock, root`fs, root`history, root`linked, root`recorded
    ensures root.Valid() && old(root.history) <= root.history && root.recorded == None
    ensures CommitTrace(root.machine, root.history, |old(root.history)|, spec) && Reported(root.machine, spec, report)
    ensures launched.Some? ==>
      InputsMatch(root.machine, launched.value, spec) && NamesApart(spec) && Seated(old(root.fs), spec)
    ensures launched == None ==>
      CalmTrace(old(root.fs), root.history, |old(root.history)|, spec) && Quiet(old(root.fs), root.fs, spec)
    ensures report.Report? && report.result == PASS ==> Complete(root.machine, root.fs, spec) && launched.Some?
    ensures report.Report? && report.result == PASS ==>
      ChildPassed(root.machine, spec, child, launched.value, stage, ctx)
    ensures launched.Some? && Classify(spec, child(launched.value, stage).exit, ctx.after).Stop? ==>
      report == Expected(root.machine, spec, child, launched.value, stage, ctx)
    ensures Tame(child) ==> EvidenceKept(old(root.fs), root.fs, spec)
    ensures Tame(child) && Retryable(root.machine, old(root.fs), spec) ==>
      RetryTrace(root.machine, root.history, |old(root.history)|, spec)
    ensures Healthy(root.machine) && Tame(child) && Ready(root.machine, old(root.fs), spec, stage, uid) &&
            !ctx.before ==>
      (if Seated(old(root.fs), spec)
       then launched.Some? && ReadyDisk(root.machine, launched.value, spec, stage) &&
            report == Expected(root.machine, spec, child, launched.value, stage, ctx)
       else launched == None && report == StopReport(NotStarted(ctx)))
  {
    SpecParts(spec);
    hide WellFormed, Frame, Trace, Quiet, QuietTrace, FlagTrace, CommitTrace, RetryTrace, Layout, ValidSpec, Staging,
         Placed, EvidenceKept, OutputsMatch, InputsMatch, ManifestExact, Retryable, Prepared, PreNamed, ReadyStage,
         EmptyStage, Physical, Tame, Classify, Complete, NamesApart, Reported, ReportOf, StopReport, Expected,
         ChildPassed, Seated, CalmTrace, WorkingDirectory;
    ghost var base, from, m := root.fs, |root.history|, root.machine;
    launched := None;
    ResultsValid(m, spec);
    var status, pre, existed, outputStage := PrepareRun(root, spec, uid, stage, path);
    ghost var mid, before := root.fs, root.history;
    QuietStretch(m, base, mid, before, from, spec);
    SeatKept(base, mid, spec);
    CalmOfQuiet(base, before, from, Flags(false, None), spec);
    if status != Go {
      PassOnly(m, spec, status);
      return ReportOf(root.machine, spec, status), launched;
    }
    PreparedNamed(m, mid, spec, pre, existed);
    report, launched := RunAndPublish(root, spec, stage, outputStage, pre, existed, child, ctx);
    CommitJoin(m, before, root.history, from, spec);
    EvidenceStretch(base, mid, root.fs, spec, Tame(child));
    if Tame(child) && Retryable(m, base, spec) { RetryJoin(m, before, root.history, from, spec); }
  }

  lemma SeatKept(a: Fs, b: Fs, spec: RunnerSpec)
    requires Quiet(a, b, spec) && WorkingDirectory(spec) in a.names
    ensures WorkingDirectory(spec) in b.names && (Seated(a, spec) <==> Seated(b, spec))
  {
    hide Gentle;
  }

  lemma ResultsValid(m: Machine, spec: RunnerSpec)
    ensures forall status: Status :: Reported(m, spec, ReportOf(m, spec, status))
  {
  }

  lemma EvidenceStretch(a: Fs, b: Fs, c: Fs, spec: RunnerSpec, tame: bool)
    requires tame ==> EvidenceKept(a, b, spec) && EvidenceKept(b, c, spec)
    ensures tame ==> EvidenceKept(a, c, spec)
  {
  }

  // ----- ExecuteTask -----

  /** The checks before the workspace is opened. */
  ghost predicate Accepted(spec: RunnerSpec, argv: seq<string>, workspace: string, meta: Metadata) {
    ValidSpec(spec) && argv == spec.argv && CleanAbsolute(workspace) && KubeName(meta.node) && |meta.node| <= 253 &&
    PodUid(meta.uid)
  }

  /** A retryable disk on which this run's names are new. */
  ghost predicate Fresh(m: Machine, fs: Fs, spec: RunnerSpec, uid: string, chances: Chances) {
    Resumable(m, fs, spec) && NamesApart(spec) && StagePath(uid, chances.stageNonce) !in fs.names &&
    EvidencePath(spec, uid) !in fs.names && EvidenceStage(spec, uid, chances.evidenceNonce) !in fs.names
  }

  /** The inputs matched when the child started, and the child ended cleanly with every output staged as
      declared: without this no pass is ever recorded. */
  ghost predicate Earned(m: Machine, spec: RunnerSpec, child: Child, launched: Option<Fs>, stage: Path, ctx: Context) {
    launched.Some? && NamesApart(spec) && InputsMatch(m, launched.value, spec) &&
    ChildPassed(m, spec, child, launched.value, stage, ctx)
  }

  /** None of the names the run uses is reserved, and a child that may write anywhere runs only if nothing is. */
  ghost predicate Respects(reserved: set<Path>, spec: RunnerSpec, uid: string, chances: Chances, child: Child) {
    Undisturbing(reserved, spec, StagePath(uid, chances.stageNonce), child) &&
    RecordClears(reserved, spec, uid, chances.evidenceNonce)
  }

  /** finish: fill in the record and publish it. */
  method Finish(root: Workspace, spec: RunnerSpec, meta: Metadata, chances: Chances, report: Report, ghost sure: bool)
    returns (outcome: Outcome)
    requires root.Valid() && RecordClears(root.reserved, spec, meta.uid, chances.evidenceNonce) && ValidSpec(spec)
    requires Layout(spec) && KubeName(meta.node) && PodUid(meta.uid)
    requires root.recorded == None && report.Report? && Reported(root.machine, spec, report)
    requires CommitHolds(root.machine, Moment(root.fs, root.linked, None), spec)
    requires report.result == PASS ==> sure && Complete(root.machine, root.fs, spec)
    modifies root`clock, root`fs, root`history, root`linked, root`recorded
    ensures root.Valid() && old(root.history) <= root.history && root.linked == old(root.linked)
    ensures HonestTrace(root.machine, root.history, |old(root.history)|, spec, meta.uid, sure)
    ensures Honest(root.machine, Moment(root.fs, root.linked, root.recorded), spec, meta.uid, sure)
    ensures CalmTrace(old(root.fs), root.history, |old(root.history)|, spec) && Quiet(old(root.fs), root.fs, spec)
    ensures outcome.Finished? ==>
      root.recorded == Some(outcome.run) && outcome.run == RecordOf(root.machine, spec, meta, chances, report)
    ensures Healthy(root.machine) && Sane(root.machine, meta.uid, chances) ==>
      !Blocked(old(root.fs), EvidenceDirectory(spec)) && !IsFile(old(root.fs), EvidenceDirectory(spec)) ==>
      EvidencePath(spec, meta.uid) !in old(root.fs.names) &&
      EvidenceStage(spec, meta.uid, chances.evidenceNonce) !in old(root.fs.names) ==>
      outcome.Finished?
  {
    var run := RecordOf(root.machine, spec, meta, chances, report);
    ReportPublishable(root.machine, root.fs, root.linked, spec, meta, chances, report, sure);
    Unrecorded(root.machine, root.fs, root.history, root.linked, spec, meta.uid, sure);
    if Sane(root.machine, meta.uid, chances) { RecordValid(root.machine, spec, meta, chances, report); }
    hide WellFormed, Frame, Quiet, Layout, Blocked, CalmTrace, HonestTrace, Publishable, Honest, ValidRun, Sane,
         Complete, OutputsMatch, ManifestExact, IsFile, RecordOf, ValidSpec, KubeName, PodUid;
    var valid := ValidateRun(root.machine.codec, run);
    if !valid { return Failed; }
    var ok := PublishEvidence(root, spec, meta.uid, chances.evidenceNonce, run, sure);
    outcome := if ok then Finished(run) else Failed;
  }

  lemma ReportPublishable(m: Machine, fs: Fs, linked: bool, spec: RunnerSpec, meta: Metadata, chances: Chances,
                          report: Report, sure: bool)
    requires WellFormed(fs) && report.Report? && Reported(m, spec, report)
    requires CommitHolds(m, Moment(fs, linked, None), spec)
    requires report.result == PASS ==> sure && Complete(m, fs, spec)
    ensures ValidRun(m.codec, RecordOf(m, spec, meta, chances, report)) ==>
            Publishable(m, fs, linked, spec, RecordOf(m, spec, meta, chances, report), sure)
  {
    hide WellFormed, ValidRun, Complete, CommitHolds, CommitOf, ValidResult;
  }

  lemma Unrecorded(m: Machine, fs: Fs, history: seq<Moment>, linked: bool, spec: RunnerSpec, uid: string, sure: bool)
    requires WellFormed(fs) && CommitHolds(m, Moment(fs, linked, None), spec)
    ensures Honest(m, Moment(fs, linked, None), spec, uid, sure) && HonestTrace(m, history, |history|, spec, uid, sure)
    ensures CalmTrace(fs, history, |history|, spec) && Quiet(fs, fs, spec)
  {
    hide WellFormed, CommitHolds;
  }

  lemma ResumableEvidence(m: Machine, fs: Fs, spec: RunnerSpec)
    requires Resumable(m, fs, spec)
    ensures !Blocked(fs, EvidenceDirectory(spec)) && !IsFile(fs, EvidenceDirectory(spec)) && !IsFile(fs, [STAGING])
  {
  }

  /** What the last state before the evidence satisfies. */
  lemma CommitNow(m: Machine, history: seq<Moment>, from: nat, fs: Fs, linked: bool, spec: RunnerSpec)
    requires 0 < from <= |history| && CommitTrace(m, history, from, spec)
    requires history[|history| - 1] == Moment(fs, linked, None)
    requires !history[from - 1].linked
    ensures CommitHolds(m, Moment(fs, linked, None), spec)
  {
    hide OutputsMatch, ManifestExact;
    if from < |history| { assert CommitHolds(m, history[|history| - 1], spec); }
  }

  lemma HonestKept(m: Machine, a: Fs, moment: Moment, spec: RunnerSpec, uid: string, sure: bool)
    requires Honest(m, Moment(a, moment.linked, moment.recorded), spec, uid, sure) && WellFormed(moment.fs)
    requires Quiet(a, moment.fs, spec)
    requires forall bytes :: HoldsBytes(a, EvidencePath(spec, uid), bytes) ==>
      HoldsBytes(moment.fs, EvidencePath(spec, uid), bytes)
    ensures Honest(m, moment, spec, uid, sure)
  {
    hide WellFormed, Quiet, ValidRun, OutputsMatch, InputsMatch, ManifestExact, HoldsBytes;
    QuietComplete(m, a, moment.fs, spec);
  }

  /** Removing the stage afterwards takes nothing back. */
  lemma StageRemoved(m: Machine, base: Fs, now: Fs, history: seq<Moment>, from: nat, flags: Flags, stage: Path,
                     spec: RunnerSpec, uid: string, sure: bool)
    requires Layout(spec) && Staging(stage, spec)
    requires Honest(m, Moment(base, flags.linked, flags.recorded), spec, uid, sure)
    requires Trace(base, history, from, flags, {stage}, {}) && Frame(base, now, {stage}, {}) && WellFormed(now)
    ensures HonestTrace(m, history, from, spec, uid, sure) && CalmTrace(base, history, from, spec)
    ensures Honest(m, Moment(now, flags.linked, flags.recorded), spec, uid, sure)
  {
    hide Frame, Quiet, Layout, Staging, Honest, HoldsBytes, WellFormed, QuietTrace;
    BaseFormed(m, base, flags, spec, uid, sure);
    RootInStage(base, spec, stage, stage);
    HarmlessTrace(base, now, history, from, flags, {stage}, {}, spec);
    CalmOfQuiet(base, history, from, flags, spec);
    StageBelow(spec, stage, uid);
    BytesKept(base, now, {stage}, EvidencePath(spec, uid));
    HonestKept(m, base, Moment(now, flags.linked, flags.recorded), spec, uid, sure);
    forall k | from <= k < |history| ensures Honest(m, history[k], spec, uid, sure) {
      assert FlagsOf(history[k]) == flags;
      BytesKept(base, history[k].fs, {stage}, EvidencePath(spec, uid));
      HonestKept(m, base, history[k], spec, uid, sure);
    }
  }

  lemma BaseFormed(m: Machine, base: Fs, flags: Flags, spec: RunnerSpec, uid: string, sure: bool)
    requires Honest(m, Moment(base, flags.linked, flags.recorded), spec, uid, sure)
    ensures WellFormed(base)
  {
  }

  lemma StageBelow(spec: RunnerSpec, stage: Path, uid: string)
    requires Layout(spec) && Staging(stage, spec)
    ensures !(stage <= EvidencePath(spec, uid))
  {
    StageApart(stage, spec, stage);
    if stage <= EvidencePath(spec, uid) { PrefixesCompare(stage, EvidenceDirectory(spec), EvidencePath(spec, uid)); }
  }

  /** With nothing in its way, the run's record is exactly the one its child deserved, or says that the child
      could not be started. */
  ghost predicate Concludes(m: Machine, spec: RunnerSpec, meta: Metadata, chances: Chances, child: Child, ctx: Context,
                            seated: bool, launched: Option<Fs>, outcome: Outcome) {
    var stage := StagePath(meta.uid, chances.stageNonce);
    if seated then
      launched.Some? && ReadyDisk(m, launched.value, spec, stage) &&
      outcome == Finished(RecordOf(m, spec, meta, chances, Expected(m, spec, child, launched.value, stage, ctx)))
    else launched == None && outcome == Finished(RecordOf(m, spec, meta, chances, StopReport(NotStarted(ctx))))
  }

  lemma Concluding(m: Machine, spec: RunnerSpec, meta: Metadata, chances: Chances, child: Child, ctx: Context,
                   seated: bool, launched: Option<Fs>, outcome: Outcome, report: Report)
    requires outcome.Finished? ==> report.Report? && outcome.run == RecordOf(m, spec, meta, chances, report)
    ensures var stage := StagePath(meta.uid, chances.stageNonce);
            outcome.Finished? &&
            (if seated
             then launched.Some? && ReadyDisk(m, launched.value, spec, stage) &&
             report == Expected(m, spec, child, launched.value, stage, ctx)
             else launched == None && report == StopReport(NotStarted(ctx))) ==>
              Concludes(m, spec, meta, chances, child, ctx, seated, launched, outcome)
  {
    hide ReadyDisk, RecordOf, Expected, StagePath, StopReport, NotStarted;
  }

  lemma ReadyParts(m: Machine, fs: Fs, spec: RunnerSpec, stage: Path, uid: string)
    requires Ready(m, fs, spec, stage, uid)
    ensures Resumable(m, fs, spec) && EvidencePath(spec, uid) !in fs.names
  {
    hide Resumable, EvidencePath;
  }

  lemma StagedFresh(m: Machine, a: Fs, b: Fs, before: seq<Moment>, history: seq<Moment>, spec: RunnerSpec,
                    meta: Metadata, chances: Chances, tame: bool, ran: bool)
    requires tame ==> EvidenceKept(a, b, spec)
    requires tame && Retryable(m, a, spec) ==> RetryTrace(m, history, |before|, spec)
    requires WellFormed(b) && (if ran then Seated(a, spec) else Quiet(a, b, spec))
    requires 0 < |before| && before <= history && before[|before| - 1].fs == a && history[|history| - 1].fs == b
    ensures tame && Retryable(m, a, spec) ==> Retryable(m, b, spec)
    ensures tame && Resumable(m, a, spec) ==>
      !Blocked(b, EvidenceDirectory(spec)) && !IsFile(b, EvidenceDirectory(spec))
    ensures tame && EvidencePath(spec, meta.uid) !in a.names ==> EvidencePath(spec, meta.uid) !in b.names
    ensures tame && EvidenceStage(spec, meta.uid, chances.evidenceNonce) !in a.names ==>
      EvidenceStage(spec, meta.uid, chances.evidenceNonce) !in b.names
  {
    hide Resumable, EvidencePath, EvidenceStage, RetryTrace, EvidenceKept, Blocked, IsFile, Quiet, Seated, WellFormed;
    EvidenceNames(spec, meta.uid, chances.evidenceNonce);
    if tame {
      StillFresh(a, b, spec, EvidencePath(spec, meta.uid));
      StillFresh(a, b, spec, EvidenceStage(spec, meta.uid, chances.evidenceNonce));
      if Retryable(m, a, spec) { RetryNow(m, before, history, a, b, spec); }
      if Resumable(m, a, spec) {
        if !ran { QuietResumable(m, a, b, spec); }
        ResumableEvidence(m, b, spec);
      }
    }
  }

  lemma PassIsEarned(m: Machine, spec: RunnerSpec, child: Child, launched: Option<Fs>, stage: Path, ctx: Context,
                     report: Report)
    requires report.Report? && (launched.Some? ==> InputsMatch(m, launched.value, spec) && NamesApart(spec))
    requires report.result == PASS ==> launched.Some? && ChildPassed(m, spec, child, launched.value, stage, ctx)
    ensures report.result == PASS ==> Earned(m, spec, child, launched, stage, ctx)
  {
    hide InputsMatch, ChildPassed, NamesApart;
  }

  lemma RetryThroughout(m: Machine, base: Fs, mid: Fs, start: seq<Moment>, before: seq<Moment>, history: seq<Moment>,
                        spec: RunnerSpec, tame: bool)
    requires start <= before <= history && CalmTrace(mid, history, |before|, spec)
    requires tame && Retryable(m, base, spec) ==> RetryTrace(m, before, |start|, spec) && Retryable(m, mid, spec)
    ensures tame && Retryable(m, base, spec) ==> RetryTrace(m, history, |start|, spec)
  {
    hide Retryable, RetryTrace, CalmTrace;
    if tame && Retryable(m, base, spec) {
      CalmRetryable(m, mid, history, |before|, spec);
      RetryJoin(m, before, history, |start|, spec);
    }
  }

  /** From the new stage to its removal. */
  method StagedTask(root: Workspace, spec: RunnerSpec, meta: Metadata, chances: Chances, child: Child, ctx: Context)
    returns (outcome: Outcome, ghost launched: Option<Fs>)
    requires root.Valid() && Respects(root.reserved, spec, meta.uid, chances, child) && ValidSpec(spec) && Layout(spec)
    requires KubeName(meta.node) && PodUid(meta.uid) && Physical(child)
    requires Staging(StagePath(meta.uid, chances.stageNonce), spec) && !root.linked && root.recorded == None
    requires WorkingDirectory(spec) in root.fs.names
    modifies root`clock, root`fs, root`history, root`linked, root`recorded
    ensures root.Valid() && old(root.history) <= root.history
    ensures HonestTrace(root.machine, root.history, |old(root.history)|, spec, meta.uid,
      Earned(root.machine, spec, child, launched, StagePath(meta.uid, chances.stageNonce), ctx))
    ensures outcome.Finished? ==> root.recorded == Some(outcome.run)
    ensures launched.Some? ==> Seated(old(root.fs), spec)
    ensures launched == None ==> CalmTrace(old(root.fs), root.history, |old(root.history)|, spec)
    ensures Tame(child) && Retryable(root.machine, old(root.fs), spec) ==>
      RetryTrace(root.machine, root.history, |old(root.history)|, spec)
    ensures Healthy(root.machine) && Sane(root.machine, meta.uid, chances) && Tame(child) && !ctx.before ==>
      Ready(root.machine, old(root.fs), spec, StagePath(meta.uid, chances.stageNonce), meta.uid) ==>
      EvidenceStage(spec, meta.uid, chances.evidenceNonce) !in old(root.fs.names) ==>
      Concludes(root.machine, spec, meta, chances, child, ctx, Seated(old(root.fs), spec), launched, outcome)
  {
    hide WellFormed, Frame, Trace, Quiet, Layout, Staging, ValidSpec, KubeName, PodUid, CommitTrace, RetryTrace,
         HonestTrace, CalmTrace, Honest, Retryable, Ready, Sane, Tame, Physical, Complete, Expected, ChildPassed,
         Reported, RecordOf, Earned, InputsMatch, EvidenceKept, ReadyStage, Blocked, IsFile, CommitHolds, EvidencePath,
         EvidenceStage, Concludes, Classify, NamesApart, Seated, ReadyDisk, WorkingDirectory, StopReport;
    ghost var base, from, m := root.fs, |root.history|, root.machine;
    var stage := StagePath(meta.uid, chances.stageNonce);
    var report;
    report, launched := RunStaged(root, spec, meta.uid, stage, chances.path, child, ctx);
    ghost var sure := Earned(m, spec, child, launched, stage, ctx);
    ghost var s1, h1, linked := root.fs, root.history, root.linked;
    CommitNow(m, h1, from, s1, linked, spec);
    CommitHonest(m, h1, from, spec, meta.uid, sure);
    Unrecorded(m, s1, h1, linked, spec, meta.uid, sure);
    StagedFresh(m, base, s1, old(root.history), h1, spec, meta, chances, Tame(child), launched.Some?);
    outcome := Failed;
    if report.Report? {
      PassIsEarned(m, spec, child, launched, stage, ctx, report);
      outcome := Finish(root, spec, meta, chances, report, sure);
    }
    ghost var s2, h2, flags := root.fs, root.history, Flags(root.linked, root.recorded);
    HonestJoin(m, h1, h2, from, spec, meta.uid, sure);
    root.RemoveAll(stage);
    StageRemoved(m, s2, root.fs, root.history, |h2|, flags, stage, spec, meta.uid, sure);
    HonestJoin(m, h2, root.history, from, spec, meta.uid, sure);
    CalmJoin(s1, s2, h2, root.history, |h1|, spec);
    RetryThroughout(m, base, s1, old(root.history), h1, root.history, spec, Tame(child));
    if launched == None { CalmJoin(base, s1, h1, root.history, from, spec); }
    if Ready(m, base, spec, stage, meta.uid) {
      ReadyParts(m, base, spec, stage, meta.uid);
      Concluding(m, spec, meta, chances, child, ctx, Seated(base, spec), launched, outcome, report);
    }
  }

  lemma FreshParts(m: Machine, fs: Fs, spec: RunnerSpec, uid: string, chances: Chances)
    requires Fresh(m, fs, spec, uid, chances)
    ensures Resumable(m, fs, spec) && PathsFit(fs, spec) && !IsFile(fs, [STAGING])
    ensures StagePath(uid, chances.stageNonce) !in fs.names
  {
    hide PathsFit;
    ResumablePathsFit(m, fs, spec);
  }

  /** A fresh disk is still fresh, and ready, once the stage is made. */
  lemma StillReady(m: Machine, a: Fs, b: Fs, spec: RunnerSpec, uid: string, chances: Chances)
    requires Fresh(m, a, spec, uid, chances) && WellFormed(b) && Quiet(a, b, spec) && EvidenceKept(a, b, spec)
    requires EmptyStage(b, StagePath(uid, chances.stageNonce))
    ensures Ready(m, b, spec, StagePath(uid, chances.stageNonce), uid)
    ensures EvidenceStage(spec, uid, chances.evidenceNonce) !in b.names
  {
    hide Resumable, Quiet, EvidenceKept, EvidencePath, EvidenceStage, WellFormed, NamesApart, StagePath, EmptyStage;
    EvidenceNames(spec, uid, chances.evidenceNonce);
    QuietResumable(m, a, b, spec);
    StillFresh(a, b, spec, EvidencePath(spec, uid));
    StillFresh(a, b, spec, EvidenceStage(spec, uid, chances.evidenceNonce));
  }

  /** ExecuteTask on an accepted spec. */
  method RunTask(root: Workspace, spec: RunnerSpec, meta: Metadata, chances: Chances, child: Child, ctx: Context)
    returns (outcome: Outcome, ghost launched: Option<Fs>)
    requires root.Valid() && Respects(root.reserved, spec, meta.uid, chances, child) && ValidSpec(spec) && Layout(spec)
    requires KubeName(meta.node) && PodUid(meta.uid) && Physical(child)
    requires !root.linked && root.recorded == None
    modifies root`clock, root`fs, root`history, root`linked, root`recorded
    ensures root.Valid() && old(root.history) <= root.history
    ensures HonestTrace(root.machine, root.history, |old(root.history)|, spec, meta.uid,
      Earned(root.machine, spec, child, launched, StagePath(meta.uid, chances.stageNonce), ctx))
    ensures outcome.Finished? ==> root.recorded == Some(outcome.run)
    ensures launched.Some? ==> Seated(old(root.fs), spec)
    ensures launched == None ==> CalmTrace(old(root.fs), root.history, |old(root.history)|, spec)
    ensures Tame(child) && Retryable(root.machine, old(root.fs), spec) ==>
      RetryTrace(root.machine, root.history, |old(root.history)|, spec)
    ensures Healthy(root.machine) && Sane(root.machine, meta.uid, chances) && Tame(child) && !ctx.before ==>
      Fresh(root.machine, old(root.fs), spec, meta.uid, chances) ==>
      Concludes(root.machine, spec, meta, chances, child, ctx, Seated(old(root.fs), spec), launched, outcome)
  {
    hide WellFormed, Frame, Trace, Quiet, QuietTrace, Layout, Staging, ValidSpec, KubeName, PodUid, CommitTrace,
         RetryTrace, HonestTrace, CalmTrace, Honest, Retryable, Ready, Fresh, Sane, Tame, Physical, Complete,
         EvidenceKept, IsFile, EvidencePath, EvidenceStage, Concludes, StagePath, EmptyStage, Earned, ArtifactsFit,
         Blocked, Seated, WorkingDirectory;
    ghost var base, from, m := root.fs, |root.history|, root.machine;
    launched := None;
    if Fresh(m, base, spec, meta.uid, chances) { FreshParts(m, base, spec, meta.uid, chances); }
    ghost var sure := Earned(m, spec, child, launched, StagePath(meta.uid, chances.stageNonce), ctx);
    Uncommitted(m, base, spec);
    Unrecorded(m, base, root.history, false, spec, meta.uid, sure);
    var ok := CheckWorkspacePaths(root, spec);
    if !ok {
      outcome := Finish(root, spec, meta, chances, Report(INFRA_FAIL, 70, None), sure);
      if Retryable(m, base, spec) { CalmRetryable(m, base, root.history, from, spec); }
      return;
    }
    ok := CreateStaging(root, spec, meta.uid, chances.stageNonce);
    ghost var mid, before := root.fs, root.history;
    QuietStretch(m, base, mid, before, from, spec);
    SeatKept(base, mid, spec);
    CalmOfQuiet(base, before, from, Flags(false, None), spec);
    if !ok {
      CommitHonest(m, before, from, spec, meta.uid, sure);
      return Failed, launched;
    }
    if Fresh(m, base, spec, meta.uid, chances) { StillReady(m, base, mid, spec, meta.uid, chances); }
    outcome, launched := StagedTask(root, spec, meta, chances, child, ctx);
    CommitHonest(m, before, from, spec, meta.uid,
                 Earned(m, spec, child, launched, StagePath(meta.uid, chances.stageNonce), ctx));
    HonestJoin(m, before, root.history, from, spec, meta.uid,
               Earned(m, spec, child, launched, StagePath(meta.uid, chances.stageNonce), ctx));
    if Tame(child) && Retryable(m, base, spec) { RetryJoin(m, before, root.history, from, spec); }
    if launched == None { CalmJoin(base, mid, before, root.history, from, spec); }
  }

  lemma Uncommitted(m: Machine, fs: Fs, spec: RunnerSpec)
    ensures CommitHolds(m, Moment(fs, false, None), spec)
  {
  }

  /** ExecuteTask. Whatever fails, wherever the run stops, and whatever the child wrote:
      a state in which this run has linked the commit manifest has every output and the manifest as declared;
      a recorded run is valid and readable, and a recorded pass was earned and stays complete to the end;
      a tame child leaves a retryable disk retryable throughout.
      With no fault, new names and a tame child, the record is exactly the one the child deserved. */
  method ExecuteTask(root: Workspace, workspace: string, spec: RunnerSpec, argv: seq<string>, meta: Metadata,
                     chances: Chances, child: Child, ctx: Context)
    returns (outcome: Outcome, ghost launched: Option<Fs>)
    requires root.Valid() && Physical(child) && !root.linked && root.recorded == None
    requires ValidSpec(spec) && PodUid(meta.uid) ==> Respects(root.reserved, spec, meta.uid, chances, child)
    modifies root`clock, root`fs, root`history, root`linked, root`recorded
    ensures root.Valid() && old(root.history) <= root.history
    ensures HonestTrace(root.machine, root.history, |old(root.history)|, spec, meta.uid,
      Earned(root.machine, spec, child, launched, StagePath(meta.uid, chances.stageNonce), ctx))
    ensures outcome.Finished? ==> root.recorded == Some(outcome.run)
    ensures launched.Some? ==> Seated(old(root.fs), spec)
    ensures launched == None ==> CalmTrace(old(root.fs), root.history, |old(root.history)|, spec)
    ensures outcome.Finished? && outcome.run.result == PASS ==>
      Complete(root.machine, root.fs, spec) &&
      Earned(root.machine, spec, child, launched, StagePath(meta.uid, chances.stageNonce), ctx)
    ensures !NamesApart(spec) || !Seated(old(root.fs), spec) ==> NeverPassed(root.history, |old(root.history)|)
    ensures Tame(child) && Retryable(root.machine, old(root.fs), spec) ==>
      RetryTrace(root.machine, root.history, |old(root.history)|, spec)
    ensures !Accepted(spec, argv, workspace, meta) ==> outcome == Failed && root.history == old(root.history)
    ensures Healthy(root.machine) && Sane(root.machine, meta.uid, chances) && Tame(child) && !ctx.before ==>
      Accepted(spec, argv, workspace, meta) && Fresh(root.machine, old(root.fs), spec, meta.uid, chances) ==>
      Concludes(root.machine, spec, meta, chances, child, ctx, Seated(old(root.fs), spec), launched, outcome)
  {
    hide WellFormed, ValidSpec, KubeName, PodUid, HonestTrace, RetryTrace, Retryable, Fresh, Sane, Tame, Physical,
         Complete, Concludes, StagePath, Earned, CleanAbsolute, CalmTrace, Seated;
    launched := None;
    NothingHappened(root.machine, root.history, spec, meta.uid,
                    Earned(root.machine, spec, child, launched, StagePath(meta.uid, chances.stageNonce), ctx));
    var valid := RunnerSpecs.Validate(spec);
    if !valid || argv != spec.argv || !CleanAbsolute(workspace) || !KubeName(meta.node) || |meta.node| > 253 ||
      !PodUid(meta.uid) {
      return Failed, launched;
    }
    ValidLayout(spec);
    ghost var before := root.history;
    outcome, launched := RunTask(root, spec, meta, chances, child, ctx);
    LastHonest(root.machine, before, root.history, root.fs, root.linked, root.recorded, spec, meta.uid,
      Earned(root.machine, spec, child, launched, StagePath(meta.uid, chances.stageNonce), ctx));
    Unlaunched(root.machine, root.history, |before|, spec, meta.uid, child, launched,
               StagePath(meta.uid, chances.stageNonce), ctx);
  }

  lemma NothingHappened(m: Machine, history: seq<Moment>, spec: RunnerSpec, uid: string, sure: bool)
    ensures HonestTrace(m, history, |history|, spec, uid, sure) && RetryTrace(m, history, |history|, spec)
    ensures forall fs :: CalmTrace(fs, history, |history|, spec)
  {
  }

  /** No state has a pass record. */
  ghost predicate NeverPassed(history: seq<Moment>, from: nat) {
    forall k :: from <= k < |history| && history[k].recorded.Some? ==> history[k].recorded.value.result != PASS
  }

  lemma Unearned(m: Machine, history: seq<Moment>, from: nat, spec: RunnerSpec, uid: string, sure: bool)
    requires HonestTrace(m, history, from, spec, uid, sure) && !sure
    ensures NeverPassed(history, from)
  {
    hide WellFormed, CommitHolds, ValidRun, Complete;
    forall k | from <= k < |history| && history[k].recorded.Some? ensures history[k].recorded.value.result != PASS {
      assert Honest(m, history[k], spec, uid, sure);
    }
  }

  lemma Unlaunched(m: Machine, history: seq<Moment>, from: nat, spec: RunnerSpec, uid: string, child: Child,
                   launched: Option<Fs>, stage: Path, ctx: Context)
    requires HonestTrace(m, history, from, spec, uid, Earned(m, spec, child, launched, stage, ctx))
    ensures !NamesApart(spec) || launched == None ==> NeverPassed(history, from)
  {
    hide HonestTrace, NamesApart, InputsMatch, ChildPassed, NeverPassed;
    if !NamesApart(spec) || launched == None { Unearned(m, history, from, spec, uid, false); }
  }

  lemma LastHonest(m: Machine, before: seq<Moment>, history: seq<Moment>, fs: Fs, linked: bool, recorded: Option<Run>,
                   spec: RunnerSpec, uid: string, sure: bool)
    requires 0 < |before| && before <= history && HonestTrace(m, history, |before|, spec, uid, sure)
    requires before[|before| - 1].recorded == None && history[|history| - 1] == Moment(fs, linked, recorded)
    ensures recorded.Some? && recorded.value.result == PASS ==> sure && Complete(m, fs, spec)
  {
    hide WellFormed, Complete, ValidRun, CommitHolds;
    if recorded.Some? { assert Honest(m, history[|history| - 1], spec, uid, sure); }
  }
}
