/** ExecuteTask up to the child: destinations checked and recorded, inputs hashed, the stage laid out. */
module Preparation {
  import opened Order
  import opened Paths
  import opened Contract
  import opened RunnerSpecs
  import opened FileSystem
  import opened Workspaces
  import opened RunStates
  import opened ChildEnvironment

  // ----- before the child -----

  /** The common part of ensureParent and ensureEvidenceDirectory. */
  method MakeDirectory(root: Workspace, d: Path) returns (ok: bool)
    requires root.Valid() && Passes(root.reserved, d)
    modifies root`clock, root`fs, root`history
    ensures root.Stepped({}, {d})
    ensures ok ==> IsDir(root.fs, d)
    ensures Healthy(root.machine) && !Blocked(old(root.fs), d) && !IsFile(old(root.fs), d) ==> ok
  {
    hide WellFormed, Frame, Trace;
    TraceStart(root.fs, root.history, Flags(root.linked, root.recorded), {}, {d});
    ok := root.CheckPath(d, true);
    if !ok { return; }
    ok := root.MkdirAll(d);
    if !ok { return; }
    StillUnblocked(root.fs, d);
    ok := root.CheckPath(d, false);
  }

  /** ensureParent for an artifact path. */
  method EnsureParent(root: Workspace, spec: RunnerSpec, p: string) returns (ok: bool)
    requires root.Valid() && OtherNames(root.reserved, spec) && Layout(spec) && p in ArtifactPaths(spec)
    modifies root`clock, root`fs, root`history
    ensures Quieted(root, spec) && Aside(old(root.fs), root.fs, spec)
    ensures ok ==> IsDir(root.fs, Parent(Split(p)))
    ensures Healthy(root.machine) && !Blocked(old(root.fs), Split(p)) ==> ok
  {
    assert root.Valid() ==> IsDir(root.fs, []);
    hide WellFormed, Frame, Trace, Quiet, QuietTrace, Layout, Aside;
    QuietStart(root.fs, root.history, Flags(root.linked, root.recorded), spec);
    var parent := Parent(Split(p));
    AsideReflexive(root.fs, spec);
    if parent == [] { return true; }
    ParentFacts(root.fs, Split(p));
    HarmlessParent(root.fs, spec, p);
    ok := MakeDirectory(root, parent);
    ParentAside(old(root.fs), root.fs, spec, p);
    HarmlessTrace(old(root.fs), root.fs, root.history, |old(root.history)|, Flags(root.linked, root.recorded), {},
                  {parent}, spec);
  }

  lemma StillUnblocked(fs: Fs, p: Path)
    requires WellFormed(fs) && IsDir(fs, p)
    ensures !Blocked(fs, p)
  {
    AncestorsPresent(fs, p);
  }

  lemma ParentFacts(fs: Fs, p: Path)
    requires p != [] && Parent(p) != []
    ensures !Blocked(fs, p) ==> !Blocked(fs, Parent(p)) && !IsFile(fs, Parent(p))
  {
    assert forall i :: 0 <= i < |p| - 1 ==> Parent(p)[..i] == p[..i];
    assert Parent(p) == p[..|p| - 1];
  }

  lemma HarmlessParent(fs: Fs, spec: RunnerSpec, p: string)
    requires Layout(spec) && p in ArtifactPaths(spec)
    ensures Harmless(fs, {}, {Parent(Split(p))}, spec)
  {
    forall q | q in ArtifactPaths(spec) ensures !(Split(q) <= Parent(Split(p))) {
      if p != q { assert Apart(Split(p), Split(q)); }
    }
  }

  lemma ParentAside(a: Fs, b: Fs, spec: RunnerSpec, p: string)
    requires Layout(spec) && p in ArtifactPaths(spec) && Frame(a, b, {}, {Parent(Split(p))})
    ensures Aside(a, b, spec)
  {
    var parent := Parent(Split(p));
    assert Apart(Split(p), [STAGING]) && p != spec.evidenceDirectory && Apart(Split(p), EvidenceDirectory(spec));
    FrameSame(a, b, {}, {parent}, [STAGING]);
    if Inside(parent, EvidenceDirectory(spec)) { PrefixTransitive(EvidenceDirectory(spec), parent, Split(p)); }
    FrameEvidence(a, b, {}, {parent}, spec);
  }

  /** verifyExistingDestination. */
  method VerifyExistingDestination(root: Workspace, a: RunnerArtifact) returns (ok: bool, exists_: bool)
    modifies root`clock
    ensures ok ==> (exists_ <==> Split(a.path) in root.fs.names) && (exists_ ==> Matches(root.machine, root.fs, a))
    ensures Healthy(root.machine) && OutputFine(root.machine, root.fs, a) ==> ok
  {
    ok, exists_ := root.Exists(Split(a.path));
    if !ok || !exists_ { return; }
    var digest := root.Hash(a.kind, Split(a.path));
    ok := digest == Some(a.sha256);
  }

  /** verifyExistingBytes for the commit manifest. */
  method VerifyExistingManifest(root: Workspace, spec: RunnerSpec) returns (ok: bool, exists_: bool)
    requires WellFormed(root.fs)
    modifies root`clock
    ensures ok ==>
      (exists_ <==> ManifestPath(spec) in root.fs.names) && (exists_ ==> ManifestExact(root.machine, root.fs, spec))
    ensures Healthy(root.machine) && ManifestFine(root.machine, root.fs, spec) ==> ok
  {
    var p := ManifestPath(spec);
    ok, exists_ := root.Exists(p);
    if !ok || !exists_ { return; }
    ok := root.CheckPath(p, false);
    if !ok || !IsFile(root.fs, p) { return false, exists_; }
    ok := root.Tick();
    ok := ok && Bytes(root.fs, p) == Manifest(root.machine, spec);
  }

  /** The hash loop over the inputs, run before and after the child. */
  method VerifyInputs(root: Workspace, spec: RunnerSpec) returns (ok: bool)
    modifies root`clock
    ensures ok ==> InputsMatch(root.machine, root.fs, spec)
    ensures Healthy(root.machine) && InputsMatch(root.machine, root.fs, spec) ==> ok
  {
    for i := 0 to |spec.inputs|
      invariant forall k :: 0 <= k < i ==> Matches(root.machine, root.fs, spec.inputs[k])
    {
      var a := spec.inputs[i];
      var digest := root.Hash(a.kind, Split(a.path));
      if digest != Some(a.sha256) {
        assert a in spec.inputs;
        return false;
      }
    }
    return true;
  }

  // ----- what preparation knows of one output -----

  predicate Noted(m: Machine, fs: Fs, a: RunnerArtifact, pre: map<string, bool>) {
    a.name in pre && (pre[a.name] <==> Split(a.path) in fs.names) && (pre[a.name] ==> Matches(m, fs, a)) &&
    IsDir(fs, Parent(Split(a.path)))
  }

  lemma QuietNoted(m: Machine, a: Fs, b: Fs, spec: RunnerSpec, x: RunnerArtifact, pre: map<string, bool>)
    requires WellFormed(a) && WellFormed(b) && Quiet(a, b, spec) && x.path in ArtifactPaths(spec) && Noted(m, a, x, pre)
    ensures Noted(m, b, x, pre)
  {
    QuietMatches(m, a, b, spec, x);
  }

  ghost predicate AllNoted(m: Machine, fs: Fs, spec: RunnerSpec, pre: map<string, bool>, n: nat)
    requires n <= |spec.outputs|
  {
    forall k :: 0 <= k < n ==> Noted(m, fs, spec.outputs[k], pre)
  }

  lemma QuietAllNoted(m: Machine, a: Fs, b: Fs, spec: RunnerSpec, pre: map<string, bool>, n: nat)
    requires n <= |spec.outputs| && WellFormed(a) && WellFormed(b) && Quiet(a, b, spec) && AllNoted(m, a, spec, pre, n)
    ensures AllNoted(m, b, spec, pre, n)
  {
    forall k | 0 <= k < n ensures Noted(m, b, spec.outputs[k], pre) {
      assert spec.outputs[k] in spec.outputs;
      PathOfArtifact(spec, spec.outputs[k]);
      QuietNoted(m, a, b, spec, spec.outputs[k], pre);
    }
  }

  /** One declared output: note whether it exists and matches, and make its parent directory. */
  method PrepareOutput(root: Workspace, spec: RunnerSpec, a: RunnerArtifact) returns (ok: bool, exists_: bool)
    requires root.Valid() && OtherNames(root.reserved, spec) && Layout(spec) && a in spec.outputs
    modifies root`clock, root`fs, root`history
    ensures Quieted(root, spec) && Aside(old(root.fs), root.fs, spec)
    ensures ok ==> Noted(root.machine, root.fs, a, map[a.name := exists_])
    ensures Healthy(root.machine) && OutputFine(root.machine, old(root.fs), a) ==> ok
  {
    hide Frame, Trace, Quiet, QuietTrace, Layout, Matches, Aside;
    QuietStart(root.fs, root.history, Flags(root.linked, root.recorded), spec);
    AsideReflexive(root.fs, spec);
    PathOfArtifact(spec, a);
    ok, exists_ := VerifyExistingDestination(root, a);
    if !ok { return; }
    ok := EnsureParent(root, spec, a.path);
    QuietMatches(root.machine, old(root.fs), root.fs, spec, a);
  }

  /** The loop over the declared outputs. */
  method PrepareOutputs(root: Workspace, spec: RunnerSpec) returns (ok: bool, pre: map<string, bool>)
    requires root.Valid() && OtherNames(root.reserved, spec) && Layout(spec) && Distinct(spec.outputs, RunnerName)
    modifies root`clock, root`fs, root`history
    ensures Quieted(root, spec) && Aside(old(root.fs), root.fs, spec)
    ensures ok ==> AllNoted(root.machine, root.fs, spec, pre, |spec.outputs|)
    ensures Healthy(root.machine) && Resumable(root.machine, old(root.fs), spec) ==> ok
  {
    hide WellFormed, Frame, Trace, Quiet, QuietTrace, Layout, Matches, Resumable, Aside, Noted, OutputFine;
    QuietStart(root.fs, root.history, Flags(root.linked, root.recorded), spec);
    AsideReflexive(root.fs, spec);
    pre := map[];
    for i := 0 to |spec.outputs|
      invariant Quieted(root, spec) && Aside(old(root.fs), root.fs, spec)
      invariant AllNoted(root.machine, root.fs, spec, pre, i)
    {
      var a := spec.outputs[i];
      if Resumable(root.machine, old(root.fs), spec) {
        QuietResumable(root.machine, old(root.fs), root.fs, spec);
        ResumableOutput(root.machine, root.fs, spec, a);
      }
      ghost var mid, before, had := root.fs, root.history, pre;
      var exists_: bool;
      ok, exists_ := PrepareOutput(root, spec, a);
      QuietThen(old(root.fs), mid, root.fs, before, root.history, |old(root.history)|,
                Flags(root.linked, root.recorded), spec);
      AsideTransitive(old(root.fs), mid, root.fs, spec);
      if !ok { return; }
      pre := pre[a.name := exists_];
      QuietAllNoted(root.machine, mid, root.fs, spec, had, i);
      AddNote(root.machine, root.fs, spec, had, i, exists_);
    }
    ok := true;
  }

  lemma AddNote(m: Machine, fs: Fs, spec: RunnerSpec, had: map<string, bool>, i: nat, exists_: bool)
    requires i < |spec.outputs| && Distinct(spec.outputs, RunnerName) && AllNoted(m, fs, spec, had, i)
    requires Noted(m, fs, spec.outputs[i], map[spec.outputs[i].name := exists_])
    ensures AllNoted(m, fs, spec, had[spec.outputs[i].name := exists_], i + 1)
  {
    forall k | 0 <= k < i ensures Noted(m, fs, spec.outputs[k], had[spec.outputs[i].name := exists_]) {
      assert RunnerName(spec.outputs[k]) != RunnerName(spec.outputs[i]);
    }
  }

  lemma ResumableOutput(m: Machine, fs: Fs, spec: RunnerSpec, a: RunnerArtifact)
    requires Resumable(m, fs, spec) && a in spec.outputs
    ensures OutputFine(m, fs, a)
  {
  }

  datatype Status = Go | Infra | Incomplete | Abort

  /** The staging directory of this run, before anything is put into it. */
  predicate EmptyStage(fs: Fs, stage: Path) { IsDir(fs, stage) && IsLeaf(fs, stage) }

  /** The stage as the child finds it. */
  predicate ReadyStage(fs: Fs, stage: Path) {
    IsDir(fs, stage) && IsDir(fs, stage + ["outputs"]) && stage + ["sealed"] !in fs.names &&
    ManifestStage(stage) !in fs.names
  }

  predicate Staging(stage: Path, spec: RunnerSpec) {
    |stage| == 2 && stage[0] == STAGING && !(stage <= WorkingDirectory(spec))
  }

  lemma HarmlessStage(fs: Fs, stage: Path, roots: set<Path>, dirs: set<Path>, spec: RunnerSpec)
    requires Layout(spec) && Staging(stage, spec)
    requires forall r :: r in roots ==> stage <= r
    requires forall d :: d in dirs ==> stage <= d || d <= EvidenceDirectory(spec)
    ensures Harmless(fs, roots, dirs, spec)
  {
    assert [STAGING] <= stage;
    forall r | r in roots ensures Inside(r, [STAGING]) && !(r <= WorkingDirectory(spec)) {
      if r <= WorkingDirectory(spec) { PrefixTransitive(stage, r, WorkingDirectory(spec)); }
    }
    forall d, p | d in dirs && p in ArtifactPaths(spec) ensures !(Split(p) <= d) {
      assert Apart(Split(p), [STAGING]);
      assert p != spec.evidenceDirectory && Apart(Split(p), EvidenceDirectory(spec));
      if Split(p) <= d {
        if stage <= d { PrefixesCompare(Split(p), [STAGING], d); } else {
          PrefixTransitive(Split(p), d, EvidenceDirectory(spec));
        }
      }
    }
  }

  lemma StageApart(stage: Path, spec: RunnerSpec, d: Path)
    requires Layout(spec) && Staging(stage, spec)
    ensures stage <= d ==> Apart(d, EvidenceDirectory(spec))
  {
    assert Apart(EvidenceDirectory(spec), [STAGING]) && [STAGING] <= stage;
    if stage <= d {
      PrefixTransitive([STAGING], stage, d);
      if EvidenceDirectory(spec) <= d { PrefixesCompare(EvidenceDirectory(spec), [STAGING], d); }
      if d <= EvidenceDirectory(spec) { PrefixTransitive([STAGING], d, EvidenceDirectory(spec)); }
    }
  }

  /** MkdirAll of one directory inside the stage. */
  method MakeStageDirectory(root: Workspace, spec: RunnerSpec, stage: Path, d: Path) returns (ok: bool)
    requires root.Valid() && Clears(root.reserved, stage) && Layout(spec) && Staging(stage, spec) && stage <= d
    modifies root`clock, root`fs, root`history
    ensures Quieted(root, spec) && EvidenceKept(old(root.fs), root.fs, spec) && Frame(old(root.fs), root.fs, {}, {d})
    ensures ok ==> IsDir(root.fs, d)
    ensures Healthy(root.machine) && !Blocked(old(root.fs), d) && !IsFile(old(root.fs), d) ==> ok
  {
    hide WellFormed, Frame, Trace, Quiet, QuietTrace, Layout, Blocked, EvidenceKept;
    HarmlessStage(root.fs, stage, {}, {d}, spec);
    StageApart(stage, spec, d);
    ok := root.MkdirAll(d);
    FrameEvidence(old(root.fs), root.fs, {}, {d}, spec);
    HarmlessTrace(old(root.fs), root.fs, root.history, |old(root.history)|, Flags(root.linked, root.recorded), {}, {d},
                  spec);
  }

  lemma HarmlessEvidence(fs: Fs, spec: RunnerSpec)
    requires Layout(spec)
    ensures Harmless(fs, {}, {EvidenceDirectory(spec)}, spec) && Spared([STAGING], {}, {EvidenceDirectory(spec)})
  {
    forall p | p in ArtifactPaths(spec) ensures !(Split(p) <= EvidenceDirectory(spec)) {
      assert p != spec.evidenceDirectory && Apart(Split(p), EvidenceDirectory(spec));
    }
  }

  /** ensureEvidenceDirectory. */
  method EnsureEvidenceDirectory(root: Workspace, spec: RunnerSpec) returns (ok: bool)
    requires root.Valid() && OtherNames(root.reserved, spec) && Layout(spec)
    modifies root`clock, root`fs, root`history
    ensures Quieted(root, spec) && Aside(old(root.fs), root.fs, spec)
    ensures ok ==> IsDir(root.fs, EvidenceDirectory(spec))
    ensures Healthy(root.machine) && !Blocked(old(root.fs), EvidenceDirectory(spec)) &&
            !IsFile(old(root.fs), EvidenceDirectory(spec)) ==>
      ok
  {
    hide WellFormed, Frame, Trace, Quiet, QuietTrace, Layout, Blocked, EvidenceKept, Same;
    HarmlessEvidence(root.fs, spec);
    ok := MakeDirectory(root, EvidenceDirectory(spec));
    FrameEvidence(old(root.fs), root.fs, {}, {EvidenceDirectory(spec)}, spec);
    FrameSame(old(root.fs), root.fs, {}, {EvidenceDirectory(spec)}, [STAGING]);
    HarmlessTrace(old(root.fs), root.fs, root.history, |old(root.history)|, Flags(root.linked, root.recorded), {},
                  {EvidenceDirectory(spec)}, spec);
  }

  // ----- everything up to the child -----

  /** What the destinations look like when the child starts. */
  ghost predicate Prepared(m: Machine, fs: Fs, spec: RunnerSpec, pre: map<string, bool>, existed: bool) {
    AllNoted(m, fs, spec, pre, |spec.outputs|) && (existed <==> ManifestPath(spec) in fs.names) &&
    (existed ==> ManifestExact(m, fs, spec)) && IsDir(fs, Parent(ManifestPath(spec)))
  }

  lemma QuietPrepared(m: Machine, a: Fs, b: Fs, spec: RunnerSpec, pre: map<string, bool>, existed: bool)
    requires WellFormed(a) && WellFormed(b) && Quiet(a, b, spec) && Prepared(m, a, spec, pre, existed)
    ensures Prepared(m, b, spec, pre, existed)
  {
    QuietAllNoted(m, a, b, spec, pre, |spec.outputs|);
    QuietManifest(m, a, b, spec);
    assert spec.commitManifestPath in ArtifactPaths(spec);
  }

  lemma ResumableFacts(m: Machine, fs: Fs, spec: RunnerSpec)
    requires Resumable(m, fs, spec)
    ensures ManifestFine(m, fs, spec) && InputsMatch(m, fs, spec)
    ensures !Blocked(fs, EvidenceDirectory(spec)) && !IsFile(fs, EvidenceDirectory(spec))
    ensures !Blocked(fs, Split(spec.commitManifestPath))
  {
  }

  /** The manifest check, and room for a new manifest. */
  method PrepareManifest(root: Workspace, spec: RunnerSpec) returns (ok: bool, existed: bool)
    requires root.Valid() && OtherNames(root.reserved, spec) && Layout(spec)
    modifies root`clock, root`fs, root`history
    ensures Quieted(root, spec) && Aside(old(root.fs), root.fs, spec)
    ensures ok ==>
      (existed <==> ManifestPath(spec) in root.fs.names) && (existed ==> ManifestExact(root.machine, root.fs, spec))
    ensures ok ==> IsDir(root.fs, Parent(ManifestPath(spec)))
    ensures Healthy(root.machine) && ManifestFine(root.machine, old(root.fs), spec) ==> ok
  {
    hide Frame, Trace, Quiet, QuietTrace, Layout, ManifestExact, Aside;
    QuietStart(root.fs, root.history, Flags(root.linked, root.recorded), spec);
    AsideReflexive(root.fs, spec);
    ok, existed := VerifyExistingManifest(root, spec);
    if !ok { return; }
    ok := EnsureParent(root, spec, spec.commitManifestPath);
    QuietManifest(root.machine, old(root.fs), root.fs, spec);
  }

  /** Outputs and manifest checked and noted. */
  method PrepareArtifacts(root: Workspace, spec: RunnerSpec) returns (ok: bool, pre: map<string, bool>, existed: bool)
    requires root.Valid() && OtherNames(root.reserved, spec) && Layout(spec) && Distinct(spec.outputs, RunnerName)
    modifies root`clock, root`fs, root`history
    ensures Quieted(root, spec) && Aside(old(root.fs), root.fs, spec)
    ensures ok ==> Prepared(root.machine, root.fs, spec, pre, existed)
    ensures Healthy(root.machine) && Resumable(root.machine, old(root.fs), spec) ==> ok
  {
    hide WellFormed, Frame, Trace, Quiet, QuietTrace, Layout, Aside, Resumable, AllNoted, ManifestExact, InputsMatch,
         ManifestFine;
    ghost var base, from, flags, m := root.fs, |root.history|, Flags(root.linked, root.recorded), root.machine;
    existed := false;
    ok, pre := PrepareOutputs(root, spec);
    if !ok { return; }
    ghost var mid, before := root.fs, root.history;
    if Resumable(m, base, spec) { QuietResumable(m, base, mid, spec); ResumableFacts(m, mid, spec); }
    ok, existed := PrepareManifest(root, spec);
    QuietThen(base, mid, root.fs, before, root.history, from, flags, spec);
    AsideTransitive(base, mid, root.fs, spec);
    QuietAllNoted(m, mid, root.fs, spec, pre, |spec.outputs|);
  }

  /** The evidence directory is there, the record is not, and the inputs are as declared. */
  method PrepareEvidence(root: Workspace, spec: RunnerSpec, uid: string) returns (status: Status)
    requires root.Valid() && OtherNames(root.reserved, spec) && Layout(spec)
    modifies root`clock, root`fs, root`history
    ensures Quieted(root, spec) && Aside(old(root.fs), root.fs, spec) && status in {Go, Infra, Abort}
    ensures status == Go ==> InputsMatch(root.machine, root.fs, spec)
    ensures Healthy(root.machine) && Resumable(root.machine, old(root.fs), spec) &&
            EvidencePath(spec, uid) !in old(root.fs.names) ==>
      status == Go
  {
    hide WellFormed, Frame, Trace, Quiet, QuietTrace, Layout, Aside, Resumable, InputsMatch, OutputsMatch,
         ManifestFine, ManifestExact, Blocked, IsFile, IsDir, EvidencePath;
    if Resumable(root.machine, root.fs, spec) { ResumableFacts(root.machine, root.fs, spec); }
    var ok := EnsureEvidenceDirectory(root, spec);
    if !ok { return Abort; }
    QuietComplete(root.machine, old(root.fs), root.fs, spec);
    EvidenceFree(old(root.fs), root.fs, spec, uid);
    var taken;
    ok, taken := root.Exists(EvidencePath(spec, uid));
    if !ok || taken { return Abort; }
    ok := VerifyInputs(root, spec);
    status := if ok then Go else Infra;
  }

  /** The steps of ExecuteTask from the first output check to the input hashes. */
  method PrepareDestinations(root: Workspace, spec: RunnerSpec, uid: string)
    returns (status: Status, pre: map<string, bool>, existed: bool)
    requires root.Valid() && OtherNames(root.reserved, spec) && Layout(spec) && Distinct(spec.outputs, RunnerName)
    modifies root`clock, root`fs, root`history
    ensures Quieted(root, spec) && Aside(old(root.fs), root.fs, spec) && status in {Go, Infra, Abort}
    ensures status == Go ==>
      Prepared(root.machine, root.fs, spec, pre, existed) && InputsMatch(root.machine, root.fs, spec)
    ensures Healthy(root.machine) && Resumable(root.machine, old(root.fs), spec) &&
            EvidencePath(spec, uid) !in old(root.fs.names) ==>
      status == Go
  {
    hide WellFormed, Frame, Trace, Quiet, QuietTrace, Layout, Aside, Resumable, Prepared, InputsMatch;
    ghost var base, from, flags, m := root.fs, |root.history|, Flags(root.linked, root.recorded), root.machine;
    var ok;
    ok, pre, existed := PrepareArtifacts(root, spec);
    if !ok { return Infra, pre, existed; }
    ghost var mid, before := root.fs, root.history;
    if Resumable(m, base, spec) { QuietResumable(m, base, mid, spec); }
    StillUnrecorded(base, mid, spec, uid);
    status := PrepareEvidence(root, spec, uid);
    QuietThen(base, mid, root.fs, before, root.history, from, flags, spec);
    AsideTransitive(base, mid, root.fs, spec);
    QuietPrepared(m, mid, root.fs, spec, pre, existed);
  }

  lemma StillUnrecorded(a: Fs, b: Fs, spec: RunnerSpec, uid: string)
    requires Aside(a, b, spec)
    ensures EvidencePath(spec, uid) !in a.names ==> EvidencePath(spec, uid) !in b.names
  {
    assert Inside(EvidencePath(spec, uid), EvidenceDirectory(spec));
  }

  lemma EvidenceFree(a: Fs, b: Fs, spec: RunnerSpec, uid: string)
    requires Aside(a, b, spec) && WellFormed(b) && IsDir(b, EvidenceDirectory(spec))
    ensures EvidencePath(spec, uid) !in a.names ==> EvidencePath(spec, uid) !in b.names
    ensures !Blocked(b, EvidencePath(spec, uid))
  {
    assert Inside(EvidencePath(spec, uid), EvidenceDirectory(spec));
    Reachable(b, EvidenceDirectory(spec), uid + ".json");
  }

  /** One more directory directly inside the stage, and nothing else there. */
  ghost predicate StageGrew(a: Fs, b: Fs, stage: Path, name: string) {
    IsDir(a, stage) ==>
      IsDir(b, stage) && (IsDir(a, stage + ["outputs"]) ==> IsDir(b, stage + ["outputs"])) &&
      forall n :: n != name && stage + [n] !in a.names ==> stage + [n] !in b.names
  }

  lemma StageLevel(a: Fs, b: Fs, stage: Path, name: string)
    requires Frame(a, b, {}, {stage + [name]})
    ensures StageGrew(a, b, stage, name)
  {
    var d := stage + [name];
    assert !Under(stage, {}) && !Under(stage + ["outputs"], {});
    forall n | n != name && stage + [n] !in a.names ensures stage + [n] !in b.names {
      assert !Under(stage + [n], {});
      assert (stage + [n])[|stage|] == n && d[|stage|] == name;
    }
  }

  lemma Reachable(fs: Fs, dir: Path, name: string)
    requires WellFormed(fs) && IsDir(fs, dir)
    ensures !Blocked(fs, dir + [name])
    ensures (dir + [name] !in fs.names ==> !IsFile(fs, dir + [name]) && CanAdd(fs, dir + [name]))
  {
    var d := dir + [name];
    AncestorsPresent(fs, dir);
    assert Parent(d) == dir;
    forall i | 0 <= i < |d| ensures !IsFile(fs, d[..i]) {
      if i < |dir| { assert d[..i] == dir[..i]; } else { assert d[..i] == dir; }
    }
  }

  /** The loop filling outputStage: the i-th output by name is staged at outputs/i. */
  method StageOutputs(outs: seq<RunnerArtifact>, stage: Path) returns (outputStage: map<string, Path>)
    requires Distinct(outs, RunnerName)
    ensures forall i :: 0 <= i < |outs| ==> outs[i].name in outputStage && outputStage[outs[i].name] == Staged(stage, i)
  {
    outputStage := map[];
    for i := 0 to |outs|
      invariant forall k :: 0 <= k < i ==> outs[k].name in outputStage && outputStage[outs[k].name] == Staged(stage, k)
    {
      forall k | 0 <= k < i ensures outs[k].name != outs[i].name { assert RunnerName(outs[k]) != RunnerName(outs[i]); }
      outputStage := outputStage[outs[i].name := Staged(stage, i)];
    }
  }

  method InputPaths(s: seq<RunnerArtifact>) returns (paths: map<string, string>)
    requires Distinct(s, RunnerName)
    ensures forall a :: a in s ==> a.name in paths && paths[a.name] == a.path
  {
    paths := map[];
    for i := 0 to |s|
      invariant forall k :: 0 <= k < i ==> s[k].name in paths && paths[s[k].name] == s[k].path
    {
      forall k | 0 <= k < i ensures s[k].name != s[i].name { assert RunnerName(s[k]) != RunnerName(s[i]); }
      paths := paths[s[i].name := s[i].path];
    }
  }

  /** runnerChildEnvironment with the paths of this run. */
  method ChildValues(spec: RunnerSpec, stage: Path, outputStage: map<string, Path>, path: string)
    returns (ok: bool, env: map<string, string>)
    requires ValidSpec(spec) && forall a :: a in spec.outputs ==> a.name in outputStage
    ensures ok <==> NamesApart(spec)
    ensures ok ==> Bound(env, OUTPUT, spec.outputs, map n | n in outputStage :: Join(outputStage[n]))
    ensures ok ==> forall a :: a in spec.inputs ==>
      INPUT + NameInEnv(a) + "_PATH" in env && env[INPUT + NameInEnv(a) + "_PATH"] == a.path
  {
    var inputs := InputPaths(spec.inputs);
    var outputs := map n | n in outputStage :: Join(outputStage[n]);
    ok, env := ChildVariables(spec, Join(stage + ["home"]), Join(stage + ["tmp"]), path, inputs, outputs);
  }

  /** stage/outputs, the child's HOME and TMPDIR, and its environment. */
  method PrepareStage(root: Workspace, spec: RunnerSpec, stage: Path, path: string)
    returns (ok: bool, env: map<string, string>, outputStage: map<string, Path>)
    requires root.Valid() && Clears(root.reserved, stage) && ValidSpec(spec) && Layout(spec) && Staging(stage, spec)
    modifies root`clock, root`fs, root`history
    ensures Quieted(root, spec) && EvidenceKept(old(root.fs), root.fs, spec)
    ensures ok ==>
      NamesApart(spec) && Bound(env, OUTPUT, spec.outputs, map n | n in outputStage :: Join(outputStage[n]))
    ensures Placed(spec, stage, outputStage)
    ensures Healthy(root.machine) && EmptyStage(old(root.fs), stage) && NamesApart(spec) ==>
      ok && ReadyStage(root.fs, stage)
  {
    OutputsSorted(spec);
    env := map[];
    outputStage := StageOutputs(SortedOutputs(spec), stage);
    ok := MakeStageDirectories(root, spec, stage);
    if !ok { return; }
    ok, env := ChildValues(spec, stage, outputStage, path);
  }

  /** Each output is staged at its place in the order of names. */
  ghost predicate Placed(spec: RunnerSpec, stage: Path, outputStage: map<string, Path>) {
    var outs := SortedOutputs(spec);
    (forall i :: 0 <= i < |outs| ==> outs[i].name in outputStage && outputStage[outs[i].name] == Staged(stage, i)) &&
    forall a :: a in spec.outputs ==> a.name in outputStage
  }

  lemma OutputsSorted(spec: RunnerSpec)
    requires ValidSpec(spec)
    ensures Distinct(spec.outputs, RunnerName) && Distinct(SortedOutputs(spec), RunnerName)
    ensures |SortedOutputs(spec)| == |spec.outputs| && forall a :: a in SortedOutputs(spec) <==> a in spec.outputs
    ensures forall a :: a in spec.outputs ==> exists i :: 0 <= i < |SortedOutputs(spec)| && SortedOutputs(spec)[i] == a
  {
    PermutationDistinct(spec.outputs, SortedOutputs(spec), RunnerName);
    PermutationMembers(spec.outputs, SortedOutputs(spec));
  }

  method MakeStageNamed(root: Workspace, spec: RunnerSpec, stage: Path, name: string) returns (ok: bool)
    requires root.Valid() && Clears(root.reserved, stage) && Layout(spec) && Staging(stage, spec)
    modifies root`clock, root`fs, root`history
    ensures Quieted(root, spec) && EvidenceKept(old(root.fs), root.fs, spec)
    ensures StageGrew(old(root.fs), root.fs, stage, name)
    ensures Frame(old(root.fs), root.fs, {}, {stage + [name]})
    ensures ok ==> IsDir(root.fs, stage + [name])
    ensures Healthy(root.machine) && IsDir(old(root.fs), stage) && stage + [name] !in old(root.fs.names) ==> ok
  {
    hide WellFormed, Frame, Trace, Quiet, QuietTrace, Layout, EvidenceKept, Blocked, StageGrew, IsFile;
    if IsDir(root.fs, stage) { Reachable(root.fs, stage, name); }
    ok := MakeStageDirectory(root, spec, stage, stage + [name]);
    StageLevel(old(root.fs), root.fs, stage, name);
  }

  method MakeStageDirectories(root: Workspace, spec: RunnerSpec, stage: Path) returns (ok: bool)
    requires root.Valid() && Clears(root.reserved, stage) && Layout(spec) && Staging(stage, spec)
    modifies root`clock, root`fs, root`history
    ensures Quieted(root, spec) && EvidenceKept(old(root.fs), root.fs, spec)
    ensures Healthy(root.machine) && EmptyStage(old(root.fs), stage) ==> ok && ReadyStage(root.fs, stage)
  {
    hide WellFormed, Frame, Trace, Quiet, QuietTrace, Layout, EvidenceKept, IsDir, StageGrew, EmptyStage, ReadyStage;
    ghost var base, from, flags := root.fs, |root.history|, Flags(root.linked, root.recorded);
    if EmptyStage(base, stage) { EmptyFacts(base, stage); }
    ok := MakeStageNamed(root, spec, stage, "outputs");
    if !ok { return; }

    ghost var s1, h1 := root.fs, root.history;
    if EmptyStage(base, stage) { GrewFacts(base, s1, stage, "outputs", "home"); }
    ok := MakeStageNamed(root, spec, stage, "home");
    QuietThen(base, s1, root.fs, h1, root.history, from, flags, spec);
    EvidenceTransitive(base, s1, root.fs, spec);
    if !ok { return; }

    ghost var s2, h2 := root.fs, root.history;
    if EmptyStage(base, stage) {
      GrewFacts(base, s1, stage, "outputs", "tmp");
      GrewFacts(s1, s2, stage, "home", "tmp");
    }
    ok := MakeStageNamed(root, spec, stage, "tmp");
    QuietThen(base, s2, root.fs, h2, root.history, from, flags, spec);
    EvidenceTransitive(base, s2, root.fs, spec);
    if EmptyStage(base, stage) { StageReady(base, s1, s2, root.fs, stage); }
  }

  lemma GrewFacts(a: Fs, b: Fs, stage: Path, name: string, other: string)
    requires StageGrew(a, b, stage, name) && IsDir(a, stage) && name != other && stage + [other] !in a.names
    ensures IsDir(b, stage) && stage + [other] !in b.names
  {
  }

  lemma StageReady(a: Fs, b: Fs, c: Fs, d: Fs, stage: Path)
    requires WellFormed(a) && EmptyStage(a, stage) && IsDir(b, stage + ["outputs"])
    requires StageGrew(a, b, stage, "outputs") && StageGrew(b, c, stage, "home") && StageGrew(c, d, stage, "tmp")
    ensures ReadyStage(d, stage)
  {
    EmptyFacts(a, stage);
    GrewFacts(a, b, stage, "outputs", "sealed");
    GrewFacts(b, c, stage, "home", "sealed");
    GrewFacts(a, b, stage, "outputs", "output-commit.json");
    GrewFacts(b, c, stage, "home", "output-commit.json");
  }

  lemma EmptyFacts(fs: Fs, stage: Path)
    requires EmptyStage(fs, stage) && WellFormed(fs)
    ensures IsDir(fs, stage) && forall n :: stage + [n] !in fs.names
  {
    forall n ensures stage + [n] !in fs.names { assert stage <= stage + [n]; }
  }
}
