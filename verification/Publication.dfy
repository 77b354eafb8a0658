/** ExecuteTask after the child: outputs sealed and re-hashed, published one at a time, and the commit
    manifest linked last. */
module Publication {
  import opened Order
  import opened Paths
  import opened Contract
  import opened RunnerSpecs
  import opened FileSystem
  import opened Workspaces
  import opened RunStates
  import opened Preparation
  import opened Children
  import opened Snapshots

  // ----- sealing -----

  predicate SealedRight(m: Machine, fs: Fs, spec: RunnerSpec, stage: Path, i: nat)
    requires i < |SortedOutputs(spec)|
  {
    var a := SortedOutputs(spec)[i];
    DigestAt(m, fs, a.kind, Sealed(stage, i)) == Some(a.sha256)
  }

  /** Outputs from `low` up to `high` are sealed as declared. */
  ghost predicate SealedBetween(m: Machine, fs: Fs, spec: RunnerSpec, stage: Path, low: nat, high: nat)
    requires high <= |SortedOutputs(spec)|
  {
    forall k :: low <= k < high ==> SealedRight(m, fs, spec, stage, k)
  }

  /** There is room for seals from i on, and for the staged manifest. */
  ghost predicate Room(fs: Fs, stage: Path, i: nat) {
    IsDir(fs, stage) && IsDir(fs, stage + ["sealed"]) && ManifestStage(stage) !in fs.names &&
    forall k: nat :: k >= i ==> Sealed(stage, k) !in fs.names
  }

  lemma PlacesApart(stage: Path, i: nat, j: nat)
    ensures Apart(Staged(stage, i), Sealed(stage, j))
    ensures i != j ==> Apart(Sealed(stage, i), Sealed(stage, j))
    ensures Apart(Sealed(stage, i), ManifestStage(stage))
    ensures stage <= Sealed(stage, i) && stage <= Staged(stage, i)
    ensures !(Sealed(stage, i) <= stage) && !(Sealed(stage, i) <= stage + ["sealed"])
  {
    var n := |stage|;
    Pad3Injective(i, j);
    assert Staged(stage, i)[n] == "outputs" && Sealed(stage, j)[n] == "sealed" && Sealed(stage, i)[n] == "sealed";
    assert Sealed(stage, i)[n + 1] == Pad3(i) && Sealed(stage, j)[n + 1] == Pad3(j);
    assert ManifestStage(stage)[n] == "output-commit.json";
  }

  lemma DigestKept(m: Machine, a: Fs, b: Fs, kind: string, roots: set<Path>, dirs: set<Path>, p: Path)
    requires WellFormed(a) && WellFormed(b) && Frame(a, b, roots, dirs) && Spared(p, roots, dirs)
    ensures DigestAt(m, a, kind, p) == DigestAt(m, b, kind, p)
  {
    FrameSame(a, b, roots, dirs, p);
    SameDigest(m, kind, a, b, p);
  }

  /** The staged outputs are as right, or as wrong, as they were. */
  ghost predicate SameStaged(m: Machine, a: Fs, b: Fs, spec: RunnerSpec, stage: Path) {
    forall k :: 0 <= k < |SortedOutputs(spec)| ==>
      (StagedRight(m, a, spec, stage, k) <==> StagedRight(m, b, spec, stage, k))
  }

  lemma StagedKept(m: Machine, a: Fs, b: Fs, spec: RunnerSpec, stage: Path, roots: set<Path>, dirs: set<Path>)
    requires WellFormed(a) && WellFormed(b) && Frame(a, b, roots, dirs)
    requires forall k: nat :: Spared(Staged(stage, k), roots, dirs)
    ensures SameStaged(m, a, b, spec, stage)
  {
    hide WellFormed, Frame, Spared, DigestAt, Staged;
    forall k | 0 <= k < |SortedOutputs(spec)|
      ensures StagedRight(m, a, spec, stage, k) <==> StagedRight(m, b, spec, stage, k)
    {
      DigestKept(m, a, b, SortedOutputs(spec)[k].kind, roots, dirs, Staged(stage, k));
    }
  }

  lemma SameStagedTransitive(m: Machine, a: Fs, b: Fs, c: Fs, spec: RunnerSpec, stage: Path)
    requires SameStaged(m, a, b, spec, stage) && SameStaged(m, b, c, spec, stage)
    ensures SameStaged(m, a, c, spec, stage)
  {
    hide StagedRight;
  }

  lemma SealsKept(m: Machine, a: Fs, b: Fs, spec: RunnerSpec, stage: Path, roots: set<Path>, low: nat, high: nat)
    requires high <= |SortedOutputs(spec)| && WellFormed(a) && WellFormed(b) && Frame(a, b, roots, {})
    requires SealedBetween(m, a, spec, stage, low, high)
    requires forall k: nat :: low <= k < high ==> Spared(Sealed(stage, k), roots, {})
    ensures SealedBetween(m, b, spec, stage, low, high)
  {
    hide WellFormed, Frame, Spared, DigestAt, Sealed;
    forall k: nat | low <= k < high ensures SealedRight(m, b, spec, stage, k) {
      assert SealedRight(m, a, spec, stage, k);
      DigestKept(m, a, b, SortedOutputs(spec)[k].kind, roots, {}, Sealed(stage, k));
    }
  }

  lemma SealStep(m: Machine, a: Fs, b: Fs, spec: RunnerSpec, stage: Path, i: nat)
    requires WellFormed(a) && WellFormed(b) && Frame(a, b, {Sealed(stage, i)}, {}) && i < |SortedOutputs(spec)|
    requires SealedBetween(m, a, spec, stage, 0, i) && SealedRight(m, b, spec, stage, i)
    ensures SealedBetween(m, b, spec, stage, 0, i + 1)
    ensures Room(a, stage, i) ==> Room(b, stage, i + 1)
    ensures SameStaged(m, a, b, spec, stage)
  {
    hide WellFormed, Frame, Sealed, Staged, Room, SameStaged, SealedRight;
    forall k: nat
      ensures Spared(Staged(stage, k), {Sealed(stage, i)}, {}) &&
        (k < i ==> Spared(Sealed(stage, k), {Sealed(stage, i)}, {}))
    {
      PlacesApart(stage, k, i);
    }
    SealsKept(m, a, b, spec, stage, {Sealed(stage, i)}, 0, i);
    StagedKept(m, a, b, spec, stage, {Sealed(stage, i)}, {});
    RoomStep(a, b, stage, i);
  }

  lemma RoomStep(a: Fs, b: Fs, stage: Path, i: nat)
    requires Frame(a, b, {Sealed(stage, i)}, {})
    ensures Room(a, stage, i) ==> Room(b, stage, i + 1)
  {
    PlacesApart(stage, i, i);
    forall k: nat | k > i ensures !Under(Sealed(stage, k), {Sealed(stage, i)}) { PlacesApart(stage, i, k); }
    assert !Under(stage, {Sealed(stage, i)}) && !Under(stage + ["sealed"], {Sealed(stage, i)}) &&
      !Under(ManifestStage(stage), {Sealed(stage, i)});
  }

  lemma SealRoom(fs: Fs, stage: Path, i: nat)
    requires Room(fs, stage, i)
    ensures CanAdd(fs, Sealed(stage, i))
  {
    assert Parent(Sealed(stage, i)) == stage + ["sealed"];
  }

  lemma RootInStage(fs: Fs, spec: RunnerSpec, stage: Path, p: Path)
    requires Layout(spec) && Staging(stage, spec) && stage <= p
    ensures Harmless(fs, {p}, {}, spec) && Apart(p, EvidenceDirectory(spec))
  {
    HarmlessStage(fs, stage, {p}, {}, spec);
    StageApart(stage, spec, p);
  }

  /** Seal the i-th output. */
  method SealOne(root: Workspace, spec: RunnerSpec, stage: Path, source: Path, i: nat) returns (ok: bool)
    requires root.Valid() && Clears(root.reserved, stage) && Layout(spec) && Staging(stage, spec)
    requires i < |SortedOutputs(spec)| && source == Staged(stage, i)
    modifies root`clock, root`fs, root`history
    ensures Quieted(root, spec) && EvidenceKept(old(root.fs), root.fs, spec)
    ensures Frame(old(root.fs), root.fs, {Sealed(stage, i)}, {})
    ensures ok ==>
      SealedRight(root.machine, root.fs, spec, stage, i) && StagedRight(root.machine, old(root.fs), spec, stage, i)
    ensures Healthy(root.machine) && Room(old(root.fs), stage, i) &&
            StagedRight(root.machine, old(root.fs), spec, stage, i) ==>
      ok
  {
    hide WellFormed, Frame, Trace, Quiet, QuietTrace, Layout, Staging, EvidenceKept, Room, CanAdd, Staged, Sealed,
         DigestAt;
    var a, target := SortedOutputs(spec)[i], Sealed(stage, i);
    PlacesApart(stage, i, i);
    if Room(root.fs, stage, i) { SealRoom(root.fs, stage, i); }
    RootInStage(root.fs, spec, stage, target);
    var digest := Snapshot(root, a.kind, source, target);
    HarmlessTrace(old(root.fs), root.fs, root.history, |old(root.history)|, Flags(root.linked, root.recorded),
                  {target}, {}, spec);
    FrameEvidence(old(root.fs), root.fs, {target}, {}, spec);
    ok := digest == Some(a.sha256);
  }

  /** The sealing loop. */
  method Seal(root: Workspace, spec: RunnerSpec, stage: Path, outputStage: map<string, Path>)
    returns (status: Status, sealed: map<string, Path>)
    requires root.Valid() && Clears(root.reserved, stage) && ValidSpec(spec) && Layout(spec) && Staging(stage, spec)
    requires Placed(spec, stage, outputStage)
    modifies root`clock, root`fs, root`history
    ensures Quieted(root, spec) && EvidenceKept(old(root.fs), root.fs, spec)
    ensures status in {Go, Incomplete, Abort}
    ensures status == Go ==> SealedBetween(root.machine, root.fs, spec, stage, 0, |SortedOutputs(spec)|)
    ensures status == Go ==> forall i :: 0 <= i < |SortedOutputs(spec)| ==>
      SortedOutputs(spec)[i].name in sealed && sealed[SortedOutputs(spec)[i].name] == Sealed(stage, i)
    ensures status == Go ==> AllStaged(root.machine, old(root.fs), spec, stage)
    ensures Healthy(root.machine) && SealReady(old(root.fs), stage) ==>
      status == (if AllStaged(root.machine, old(root.fs), spec, stage) then Go else Incomplete)
    ensures status == Go && SealReady(old(root.fs), stage) ==> Room(root.fs, stage, |SortedOutputs(spec)|)
  {
    hide WellFormed, Frame, Trace, Quiet, QuietTrace, Layout, Staging, EvidenceKept, Room, SealReady, ValidSpec,
         SealedRight, StagedRight, AllStaged, SameStaged, SealedBetween, Sealed, StagedBefore, SortedOutputs, Healthy,
         Distinct;
    ghost var base, from, flags, m := root.fs, |root.history|, Flags(root.linked, root.recorded), root.machine;
    OutputsSorted(spec);
    var outs := SortedOutputs(spec);
    sealed := map[];
    if SealReady(base, stage) { SealReadyFacts(base, stage); }
    var ok := MakeStageNamed(root, spec, stage, "sealed");
    if !ok { return Abort, sealed; }
    StartSealing(m, base, root.fs, spec, stage);
    NoneSealed(m, base, root.fs, spec, stage);
    for i := 0 to |outs|
      invariant Quieted(root, spec) && EvidenceKept(base, root.fs, spec)
      invariant SealedBetween(m, root.fs, spec, stage, 0, i)
      invariant forall k :: 0 <= k < i ==> outs[k].name in sealed && sealed[outs[k].name] == Sealed(stage, k)
      invariant SealReady(base, stage) ==> Room(root.fs, stage, i)
      invariant SameStaged(m, base, root.fs, spec, stage) && StagedBefore(m, base, spec, stage, i)
    {
      ghost var mid, before := root.fs, root.history;
      StagedNext(m, base, mid, spec, stage, i);
      ok := SealOne(root, spec, stage, outputStage[outs[i].name], i);
      QuietThen(base, mid, root.fs, before, root.history, from, flags, spec);
      EvidenceTransitive(base, mid, root.fs, spec);
      if !ok { return Incomplete, sealed; }
      SealStep(m, mid, root.fs, spec, stage, i);
      SameStagedTransitive(m, base, mid, root.fs, spec, stage);
      forall k | 0 <= k < i ensures outs[k].name != outs[i].name { assert RunnerName(outs[k]) != RunnerName(outs[i]); }
      sealed := sealed[outs[i].name := Sealed(stage, i)];
    }
    EveryStaged(m, base, spec, stage);
    status := Go;
  }

  /** The staged outputs before i are right. */
  ghost predicate StagedBefore(m: Machine, fs: Fs, spec: RunnerSpec, stage: Path, i: nat)
    requires i <= |SortedOutputs(spec)|
  {
    forall k :: 0 <= k < i ==> StagedRight(m, fs, spec, stage, k)
  }

  lemma NoneSealed(m: Machine, base: Fs, fs: Fs, spec: RunnerSpec, stage: Path)
    ensures StagedBefore(m, base, spec, stage, 0) && SealedBetween(m, fs, spec, stage, 0, 0)
  {
  }

  lemma EveryStaged(m: Machine, fs: Fs, spec: RunnerSpec, stage: Path)
    requires StagedBefore(m, fs, spec, stage, |SortedOutputs(spec)|)
    ensures AllStaged(m, fs, spec, stage)
  {
  }

  lemma StagedNext(m: Machine, base: Fs, fs: Fs, spec: RunnerSpec, stage: Path, i: nat)
    requires SameStaged(m, base, fs, spec, stage) && i < |SortedOutputs(spec)|
    ensures AllStaged(m, base, spec, stage) ==> StagedRight(m, fs, spec, stage, i)
    ensures StagedBefore(m, base, spec, stage, i) && StagedRight(m, fs, spec, stage, i) ==>
      StagedBefore(m, base, spec, stage, i + 1)
  {
    hide StagedRight;
  }

  lemma SealReadyFacts(fs: Fs, stage: Path)
    requires SealReady(fs, stage)
    ensures IsDir(fs, stage) && stage + ["sealed"] !in fs.names
  {
  }

  lemma StartSealing(m: Machine, a: Fs, b: Fs, spec: RunnerSpec, stage: Path)
    requires WellFormed(a) && WellFormed(b) && StageGrew(a, b, stage, "sealed") && Frame(a, b, {}, {stage + ["sealed"]})
    requires IsDir(b, stage + ["sealed"])
    ensures SealReady(a, stage) ==> Room(b, stage, 0)
    ensures SameStaged(m, a, b, spec, stage)
  {
    if SealReady(a, stage) { StartRoom(a, b, stage); }
    forall k: nat ensures Spared(Staged(stage, k), {}, {stage + ["sealed"]}) {
      assert |Staged(stage, k)| == |stage| + 2;
    }
    StagedKept(m, a, b, spec, stage, {}, {stage + ["sealed"]});
  }

  lemma StartRoom(a: Fs, b: Fs, stage: Path)
    requires WellFormed(a) && Frame(a, b, {}, {stage + ["sealed"]}) && StageGrew(a, b, stage, "sealed")
    requires SealReady(a, stage) && IsDir(b, stage + ["sealed"])
    ensures Room(b, stage, 0)
  {
    forall k: nat ensures Sealed(stage, k) !in b.names {
      var p := Sealed(stage, k);
      assert |p| == |stage| + 2 && stage + ["sealed"] <= p;
      NothingBelow(a, stage + ["sealed"], p);
      assert !Under(p, {}) && !Leads(p, {stage + ["sealed"]});
    }
  }

  // ----- publishing -----

  function OutputPath(spec: RunnerSpec, i: nat): Path
    requires i < |SortedOutputs(spec)|
  {
    Split(SortedOutputs(spec)[i].path)
  }

  /** Everything the spec names, other than the paths in `touched`, is as it was. */
  ghost predicate Beside(a: Fs, b: Fs, spec: RunnerSpec, touched: set<string>) {
    (forall p :: p in ArtifactPaths(spec) && p !in touched ==>
      Same(a, b, Split(p)) && (!Blocked(a, Split(p)) ==> !Blocked(b, Split(p))) &&
      (IsDir(a, Parent(Split(p))) ==> IsDir(b, Parent(Split(p))))) &&
    (!Blocked(a, EvidenceDirectory(spec)) ==> !Blocked(b, EvidenceDirectory(spec))) &&
    (!IsFile(a, EvidenceDirectory(spec)) ==> !IsFile(b, EvidenceDirectory(spec))) &&
    (!IsFile(a, [STAGING]) ==> !IsFile(b, [STAGING]))
  }

  lemma BesideTransitive(a: Fs, b: Fs, c: Fs, spec: RunnerSpec, touched: set<string>, more: set<string>)
    requires Beside(a, b, spec, touched) && Beside(b, c, spec, more)
    ensures Beside(a, c, spec, touched + more)
  {
    hide Blocked, IsFile, IsDir, Parent, Split, ArtifactPaths, Same;
    forall p | p in ArtifactPaths(spec) && p !in touched + more ensures Same(a, c, Split(p)) {
      SameTransitive(a, b, c, Split(p));
    }
  }

  lemma SameTransitive(a: Fs, b: Fs, c: Fs, y: Path)
    requires Same(a, b, y) && Same(b, c, y)
    ensures Same(a, c, y)
  {
  }

  lemma NotUnder(spec: RunnerSpec, roots: set<Path>, y: string, q: Path)
    requires forall r :: r in roots ==> Apart(r, Split(y))
    requires q <= Split(y)
    ensures !Under(q, roots)
  {
    forall r | r in roots ensures !(r <= q) {
      if r <= q { PrefixTransitive(r, q, Split(y)); }
    }
  }

  lemma StaysReachable(a: Fs, b: Fs, spec: RunnerSpec, roots: set<Path>, y: string)
    requires Frame(a, b, roots, {}) && forall r :: r in roots ==> Apart(r, Split(y))
    ensures !Blocked(a, Split(y)) ==> !Blocked(b, Split(y))
    ensures IsDir(a, Parent(Split(y))) ==> IsDir(b, Parent(Split(y)))
    ensures !IsFile(a, Split(y)) ==> !IsFile(b, Split(y))
  {
    forall k | 0 <= k <= |Split(y)| ensures !Under(Split(y)[..k], roots) { NotUnder(spec, roots, y, Split(y)[..k]); }
    assert Split(y)[..|Split(y)|] == Split(y) && Parent(Split(y)) == Split(y)[..|Split(y)| - 1];
    if !Blocked(a, Split(y)) {
      forall k | 0 <= k < |Split(y)| ensures !IsFile(b, Split(y)[..k]) { assert !IsFile(a, Split(y)[..k]); }
    }
  }

  /** A step confined to one artifact path and the stage leaves all other places alone. */
  lemma StepBeside(a: Fs, b: Fs, spec: RunnerSpec, stage: Path, p: string, s: Path)
    requires Layout(spec) && Staging(stage, spec) && p in ArtifactPaths(spec) && stage <= s
    requires Frame(a, b, {Split(p), s}, {})
    ensures Beside(a, b, spec, {p}) && EvidenceKept(a, b, spec)
  {
    var roots := {Split(p), s};
    RootsBeside(spec, stage, p, s);
    assert spec.evidenceDirectory != p && Apart(Split(p), [STAGING]) && [STAGING] <= stage <= s && !(s <= [STAGING]);
    hide Layout, Staging, Frame, Blocked, Same, Split, ArtifactPaths;
    forall y | y in ArtifactPaths(spec) && y != p
      ensures Same(a, b, Split(y)) && (!Blocked(a, Split(y)) ==> !Blocked(b, Split(y))) &&
              (IsDir(a, Parent(Split(y))) ==> IsDir(b, Parent(Split(y))))
    {
      FrameSame(a, b, roots, {}, Split(y));
      StaysReachable(a, b, spec, roots, y);
    }
    StaysReachable(a, b, spec, roots, spec.evidenceDirectory);
    FrameEvidence(a, b, roots, {}, spec);
    assert !Under([STAGING], roots);
    StaysNonFile(a, b, roots, {}, [STAGING]);
  }

  lemma RootsBeside(spec: RunnerSpec, stage: Path, p: string, s: Path)
    requires Layout(spec) && Staging(stage, spec) && p in ArtifactPaths(spec) && stage <= s
    ensures forall y, r :: y in ArtifactPaths(spec) + {spec.evidenceDirectory} && y != p && r in {Split(p), s} ==>
      Apart(r, Split(y))
  {
    forall y | y in ArtifactPaths(spec) + {spec.evidenceDirectory} && y != p
      ensures Apart(Split(p), Split(y)) && Apart(s, Split(y))
    {
      StageBeside(spec, stage, s, y);
    }
  }

  lemma StageBeside(spec: RunnerSpec, stage: Path, s: Path, y: string)
    requires Layout(spec) && Staging(stage, spec) && stage <= s && y in ArtifactPaths(spec) + {spec.evidenceDirectory}
    ensures Apart(s, Split(y))
  {
    assert Apart(Split(y), [STAGING]) && [STAGING] <= stage;
    PrefixTransitive([STAGING], stage, s);
    if Split(y) <= s { PrefixesCompare(Split(y), [STAGING], s); }
    if s <= Split(y) { PrefixTransitive([STAGING], s, Split(y)); }
  }

  lemma BesideMatches(m: Machine, a: Fs, b: Fs, spec: RunnerSpec, touched: set<string>, x: RunnerArtifact,
                      pre: map<string, bool>)
    requires WellFormed(a) && WellFormed(b) && Beside(a, b, spec, touched) && x.path in ArtifactPaths(spec)
    requires x.path !in touched
    ensures Matches(m, a, x) <==> Matches(m, b, x)
    ensures OutputFine(m, a, x) ==> OutputFine(m, b, x)
    ensures Noted(m, a, x, pre) ==> Noted(m, b, x, pre)
  {
    SameDigest(m, x.kind, a, b, Split(x.path));
    assert Split(x.path) <= Split(x.path);
  }

  lemma SealIsThere(m: Machine, fs: Fs, kind: string, p: Path)
    requires DigestAt(m, fs, kind, p).Some?
    ensures (kind == FILE && IsFile(fs, p)) || (kind == TREE && IsDir(fs, p))
  {
  }

  /** Link or rename one sealed output to its place. */
  method Place(root: Workspace, spec: RunnerSpec, stage: Path, seal: Path, i: nat) returns (ok: bool)
    requires root.Valid() && Others(root.reserved, spec, stage) && Layout(spec) && Staging(stage, spec)
    requires i < |SortedOutputs(spec)| && seal == Sealed(stage, i)
    requires SealedRight(root.machine, root.fs, spec, stage, i) && SortedOutputs(spec)[i] in spec.outputs
    modifies root`clock, root`fs, root`history
    ensures root.Stepped({OutputPath(spec, i), Sealed(stage, i)}, {})
    ensures root.history == if ok then
      old(root.history) + [Moment(root.fs, root.linked, root.recorded)] else old(root.history)
    ensures !ok ==> root.fs == old(root.fs)
    ensures ok ==> CanAdd(old(root.fs), OutputPath(spec, i)) && Matches(root.machine, root.fs, SortedOutputs(spec)[i])
    ensures Healthy(root.machine) && CanAdd(old(root.fs), OutputPath(spec, i)) ==> ok
  {
    hide WellFormed, Frame, Trace, Layout, Staging, Sealed, CanAdd, DigestAt, Mirror, Untaken, Clears, Passes,
         OtherNames;
    var a, target := SortedOutputs(spec)[i], OutputPath(spec, i);
    PlacesApart(stage, i, i);
    PathOfArtifact(spec, a);
    ArtifactClears(root.reserved, spec, a.path);
    ClearsBelow(root.reserved, stage, seal);
    StageBeside(spec, stage, seal, a.path);
    SealIsThere(root.machine, root.fs, a.kind, seal);
    ghost var before := root.fs;
    if a.kind == FILE {
      ok := root.Link(seal, target);
      WidenTrace(before, root.fs, root.history, |old(root.history)|, Flags(root.linked, root.recorded), {target},
                 {target, seal});
      if ok { AddLinkKeeps(before, seal, target); }
    } else {
      NonEmptySeal(stage, i);
      ok := root.Rename(seal, target);
      WidenTrace(before, root.fs, root.history, |old(root.history)|, Flags(root.linked, root.recorded), {seal, target},
                 {target, seal});
      if ok { MoveTreeKeeps(before, seal, target); }
    }
    if ok { MirrorDigest(root.machine, a.kind, before, seal, root.fs, target); }
  }

  lemma NonEmptySeal(stage: Path, i: nat)
    ensures Sealed(stage, i) != []
  {
  }

  lemma WidenTrace(base: Fs, now: Fs, history: seq<Moment>, from: nat, flags: Flags, roots: set<Path>, more: set<Path>)
    requires Trace(base, history, from, flags, roots, {}) && Frame(base, now, roots, {}) && roots <= more
    ensures Trace(base, history, from, flags, more, {}) && Frame(base, now, more, {})
  {
    forall p | Under(p, roots) ensures Under(p, more) { }
  }

  /** Since `from`, the output's path has been free or held its declared content, and the disk moved
      only if the path was free to begin with. */
  ghost predicate FineTrace(m: Machine, base: Fs, history: seq<Moment>, from: nat, a: RunnerArtifact) {
    (forall k :: from <= k < |history| ==> OutputFine(m, history[k].fs, a)) &&
    (from < |history| ==> Split(a.path) !in base.names)
  }

  lemma MatchedIsFine(m: Machine, fs: Fs, a: RunnerArtifact)
    requires WellFormed(fs) && Matches(m, fs, a)
    ensures OutputFine(m, fs, a)
  {
    SealIsThere(m, fs, a.kind, Split(a.path));
    AncestorsPresent(fs, Split(a.path));
  }

  lemma NotedRoom(m: Machine, fs: Fs, a: RunnerArtifact, pre: map<string, bool>)
    requires WellFormed(fs) && Noted(m, fs, a, pre)
    ensures !Blocked(fs, Split(a.path)) && (!pre[a.name] ==> CanAdd(fs, Split(a.path)))
  {
    var p := Split(a.path);
    AncestorsPresent(fs, Parent(p));
    forall i | 0 <= i < |p| ensures !IsFile(fs, p[..i]) {
      if i < |p| - 1 { assert p[..i] == Parent(p)[..i]; } else { assert p[..i] == Parent(p); }
    }
  }

  lemma NoTrace(m: Machine, fs: Fs, history: seq<Moment>, a: RunnerArtifact)
    ensures FineTrace(m, fs, history, |history|, a)
  {
  }

  /** One output: re-hash it if it was there before the child, otherwise put it in its place. A path
      that appeared meanwhile is removed and the run fails. */
  method PublishOne(root: Workspace, spec: RunnerSpec, stage: Path, seal: Path, pre: map<string, bool>, i: nat)
    returns (ok: bool)
    requires root.Valid() && Others(root.reserved, spec, stage) && Layout(spec) && Staging(stage, spec)
    requires i < |SortedOutputs(spec)| && seal == Sealed(stage, i)
    requires SealedRight(root.machine, root.fs, spec, stage, i) && SortedOutputs(spec)[i] in spec.outputs
    requires SortedOutputs(spec)[i].name in pre
    modifies root`clock, root`fs, root`history
    ensures root.Stepped({OutputPath(spec, i), Sealed(stage, i)}, {})
    ensures ok ==> Matches(root.machine, root.fs, SortedOutputs(spec)[i])
    ensures Noted(root.machine, old(root.fs), SortedOutputs(spec)[i], pre) ==>
      FineTrace(root.machine, old(root.fs), root.history, |old(root.history)|, SortedOutputs(spec)[i])
    ensures Healthy(root.machine) && Noted(root.machine, old(root.fs), SortedOutputs(spec)[i], pre) ==> ok
  {
    hide WellFormed, Frame, Trace, Layout, Staging, Sealed, CanAdd, SealedRight, Blocked, DigestAt, Untaken, Clears,
         Passes, OtherNames;
    var a := SortedOutputs(spec)[i];
    ghost var before := root.fs;
    TraceStart(root.fs, root.history, Flags(root.linked, root.recorded), {OutputPath(spec, i), Sealed(stage, i)}, {});
    NoTrace(root.machine, before, root.history, a);
    PathOfArtifact(spec, a);
    ArtifactClears(root.reserved, spec, a.path);
    if Noted(root.machine, before, a, pre) { NotedRoom(root.machine, before, a, pre); }
    if pre[a.name] {
      var digest := root.Hash(a.kind, Split(a.path));
      return digest == Some(a.sha256);
    }
    var exists_;
    ok, exists_ := root.Exists(Split(a.path));
    if !ok { return; }
    if exists_ {
      var removed := root.Remove(Split(a.path));
      WidenTrace(before, root.fs, root.history, |old(root.history)|, Flags(root.linked, root.recorded),
                 {OutputPath(spec, i)}, {OutputPath(spec, i), Sealed(stage, i)});
      return false;
    }
    ok := Place(root, spec, stage, seal, i);
    if ok {
      MatchedIsFine(root.machine, root.fs, a);
      assert root.history[|old(root.history)|].fs == root.fs;
      ok := root.Tick();
    }
  }

  /** Outputs before i are in place; the seals from i on are intact. */
  ghost predicate Publishing(m: Machine, fs: Fs, spec: RunnerSpec, stage: Path, i: nat)
    requires i <= |SortedOutputs(spec)|
  {
    (forall j :: 0 <= j < i ==> Matches(m, fs, SortedOutputs(spec)[j])) &&
    SealedBetween(m, fs, spec, stage, i, |SortedOutputs(spec)|)
  }

  ghost predicate StillNoted(m: Machine, fs: Fs, spec: RunnerSpec, pre: map<string, bool>, i: nat) {
    forall j :: i <= j < |SortedOutputs(spec)| ==> Noted(m, fs, SortedOutputs(spec)[j], pre)
  }

  /** The staged manifest can be written. */
  predicate ManifestRoom(fs: Fs, stage: Path) { IsDir(fs, stage) && ManifestStage(stage) !in fs.names }

  lemma RoomKept(a: Fs, b: Fs, spec: RunnerSpec, stage: Path, i: nat)
    requires ValidSpec(spec) && Layout(spec) && Staging(stage, spec) && i < |SortedOutputs(spec)|
    requires Frame(a, b, {OutputPath(spec, i), Sealed(stage, i)}, {})
    ensures ManifestRoom(a, stage) ==> ManifestRoom(b, stage)
  {
    hide ValidSpec, Layout, Staging;
    SortedPath(spec, i, i);
    PlacesApart(stage, i, i);
    StageBeside(spec, stage, stage, SortedOutputs(spec)[i].path);
    StageBeside(spec, stage, ManifestStage(stage), SortedOutputs(spec)[i].path);
    assert !Under(stage, {OutputPath(spec, i), Sealed(stage, i)});
    assert !Under(ManifestStage(stage), {OutputPath(spec, i), Sealed(stage, i)});
  }

  ghost predicate RetryTrace(m: Machine, history: seq<Moment>, from: nat, spec: RunnerSpec) {
    forall k :: from <= k < |history| ==> Retryable(m, history[k].fs, spec)
  }

  lemma SortedPath(spec: RunnerSpec, i: nat, j: nat)
    requires ValidSpec(spec) && Layout(spec) && i < |SortedOutputs(spec)| && j < |SortedOutputs(spec)|
    ensures SortedOutputs(spec)[i] in spec.outputs && SortedOutputs(spec)[i].path in ArtifactPaths(spec)
    ensures i != j ==> SortedOutputs(spec)[i].path != SortedOutputs(spec)[j].path
  {
    var outs := SortedOutputs(spec);
    OutputsSorted(spec);
    assert outs[i] in outs && outs[j] in outs;
    PathOfArtifact(spec, outs[i]);
    if i != j {
      assert RunnerName(outs[i]) != RunnerName(outs[j]);
      var k :| 0 <= k < |spec.outputs| && spec.outputs[k] == outs[i];
      var l :| 0 <= l < |spec.outputs| && spec.outputs[l] == outs[j];
    }
  }

  lemma PublishStep(m: Machine, a: Fs, b: Fs, spec: RunnerSpec, stage: Path, pre: map<string, bool>, i: nat)
    requires ValidSpec(spec) && Layout(spec) && Staging(stage, spec) && i < |SortedOutputs(spec)|
    requires WellFormed(a) && WellFormed(b) && Frame(a, b, {OutputPath(spec, i), Sealed(stage, i)}, {})
    ensures Beside(a, b, spec, {SortedOutputs(spec)[i].path}) && EvidenceKept(a, b, spec)
    ensures Publishing(m, a, spec, stage, i) && Matches(m, b, SortedOutputs(spec)[i]) ==>
      Publishing(m, b, spec, stage, i + 1)
    ensures StillNoted(m, a, spec, pre, i) ==> StillNoted(m, b, spec, pre, i + 1)
  {
    hide WellFormed, Frame, Layout, ValidSpec, Staging, Sealed, Beside, EvidenceKept, Matches, OutputFine, Noted,
         SealedRight, SortedOutputs;
    var outs, n := SortedOutputs(spec), |SortedOutputs(spec)|;
    var a_i := outs[i];
    SortedPath(spec, i, i);
    PlacesApart(stage, i, i);
    StepBeside(a, b, spec, stage, a_i.path, Sealed(stage, i));
    forall j | 0 <= j < n && j != i
      ensures Matches(m, a, outs[j]) <==> Matches(m, b, outs[j])
      ensures Noted(m, a, outs[j], pre) ==> Noted(m, b, outs[j], pre)
    {
      SortedPath(spec, j, i);
      BesideMatches(m, a, b, spec, {a_i.path}, outs[j], pre);
    }
    if Publishing(m, a, spec, stage, i) {
      assert SealedBetween(m, a, spec, stage, i + 1, n);
      forall k: nat | i + 1 <= k < n ensures Spared(Sealed(stage, k), {OutputPath(spec, i), Sealed(stage, i)}, {}) {
        PlacesApart(stage, k, i);
        PlacesApart(stage, i, k);
        StageBeside(spec, stage, Sealed(stage, k), a_i.path);
      }
      SealsKept(m, a, b, spec, stage, {OutputPath(spec, i), Sealed(stage, i)}, i + 1, n);
    }
  }

  /** Putting an output into its free place keeps the workspace retryable. */
  lemma RetryStep(m: Machine, a: Fs, b: Fs, spec: RunnerSpec, stage: Path, p: string, s: Path)
    requires Layout(spec) && Staging(stage, spec) && p in ArtifactPaths(spec) && stage <= s
    requires Retryable(m, a, spec) && WellFormed(b) && Frame(a, b, {Split(p), s}, {}) && Split(p) !in a.names
    requires forall x :: x in spec.outputs && x.path == p ==> OutputFine(m, b, x)
    requires p == spec.commitManifestPath ==> ManifestFine(m, b, spec)
    requires p !in KeySet(spec.inputs, RunnerPath)
    ensures Retryable(m, b, spec)
  {
    hide Frame, Matches, ManifestExact, Blocked;
    StepBeside(a, b, spec, stage, p, s);
    forall x | x in spec.inputs ensures Matches(m, b, x) {
      KeyIn(spec.inputs, x, RunnerPath);
      PathOfArtifact(spec, x);
      BesideMatches(m, a, b, spec, {p}, x, map[]);
    }
    forall x | x in spec.outputs ensures OutputFine(m, b, x) {
      PathOfArtifact(spec, x);
      if x.path != p { BesideMatches(m, a, b, spec, {p}, x, map[]); }
    }
    if p != spec.commitManifestPath { BesideManifest(m, a, b, spec, {p}); }
    DirectoryStays(a, b, spec, stage, p, s);
  }

  lemma BesideManifest(m: Machine, a: Fs, b: Fs, spec: RunnerSpec, touched: set<string>)
    requires WellFormed(a) && WellFormed(b) && Beside(a, b, spec, touched) && spec.commitManifestPath !in touched
    ensures ManifestFine(m, a, spec) ==> ManifestFine(m, b, spec)
    ensures ManifestExact(m, a, spec) <==> ManifestExact(m, b, spec)
    ensures ManifestPath(spec) in a.names <==> ManifestPath(spec) in b.names
    ensures IsDir(a, Parent(ManifestPath(spec))) ==> IsDir(b, Parent(ManifestPath(spec)))
  {
    var p := ManifestPath(spec);
    assert spec.commitManifestPath in ArtifactPaths(spec) && Same(a, b, p) && p <= p;
  }

  lemma DirectoryStays(a: Fs, b: Fs, spec: RunnerSpec, stage: Path, p: string, s: Path)
    requires WellFormed(a) && Staging(stage, spec) && stage <= s
    requires Frame(a, b, {Split(p), s}, {}) && Split(p) !in a.names && WorkingDirectory(spec) in a.names
    ensures WorkingDirectory(spec) in b.names && (Seated(a, spec) <==> Seated(b, spec))
  {
    var wd := WorkingDirectory(spec);
    if s <= wd { PrefixTransitive(stage, s, wd); }
    if Split(p) <= wd { if Split(p) != wd { AncestorIsDir(a, Split(p), wd); } }
    assert !Under(wd, {Split(p), s});
  }

  lemma RetryStretch(m: Machine, mid: Fs, history: seq<Moment>, from: nat, flags: Flags, spec: RunnerSpec, stage: Path,
                     i: nat)
    requires ValidSpec(spec) && Layout(spec) && Staging(stage, spec) && i < |SortedOutputs(spec)|
    requires Retryable(m, mid, spec)
    requires Trace(mid, history, from, flags, {OutputPath(spec, i), Sealed(stage, i)}, {})
    requires FineTrace(m, mid, history, from, SortedOutputs(spec)[i])
    ensures RetryTrace(m, history, from, spec)
  {
    hide Frame, Layout, ValidSpec, Staging, Sealed, OutputFine, Retryable, ManifestFine, WellFormed;
    var a := SortedOutputs(spec)[i];
    SortedPath(spec, i, i);
    PlacesApart(stage, i, i);
    OutputsOwnPaths(spec, a);
    forall k | from <= k < |history| ensures Retryable(m, history[k].fs, spec) {
      assert OutputFine(m, history[k].fs, a);
      RetryStep(m, mid, history[k].fs, spec, stage, a.path, Sealed(stage, i));
    }
  }

  lemma OutputsOwnPaths(spec: RunnerSpec, a: RunnerArtifact)
    requires Layout(spec) && a in spec.outputs
    ensures forall x :: x in spec.outputs && x.path == a.path ==> x == a
    ensures a.path != spec.commitManifestPath && a.path !in KeySet(spec.inputs, RunnerPath)
  {
    forall x | x in spec.outputs && x.path == a.path ensures x == a {
      var i :| 0 <= i < |spec.outputs| && spec.outputs[i] == x;
      var j :| 0 <= j < |spec.outputs| && spec.outputs[j] == a;
    }
  }

  lemma RetryJoin(m: Machine, before: seq<Moment>, history: seq<Moment>, from: nat, spec: RunnerSpec)
    requires before <= history && RetryTrace(m, before, from, spec) && RetryTrace(m, history, |before|, spec)
    ensures RetryTrace(m, history, from, spec)
  {
    forall k | from <= k < |history| ensures Retryable(m, history[k].fs, spec) {
      if k < |before| { assert history[k] == before[k]; }
    }
  }

  lemma FlagJoin(before: seq<Moment>, history: seq<Moment>, from: nat, flags: Flags)
    requires before <= history && FlagTrace(before, from, flags) && FlagTrace(history, |before|, flags)
    ensures FlagTrace(history, from, flags)
  {
    forall k | from <= k < |history| ensures WellFormed(history[k].fs) && FlagsOf(history[k]) == flags {
      if k < |before| { assert history[k] == before[k]; }
    }
  }

  lemma TraceFlags(base: Fs, history: seq<Moment>, from: nat, flags: Flags, roots: set<Path>, dirs: set<Path>)
    requires Trace(base, history, from, flags, roots, dirs)
    ensures FlagTrace(history, from, flags)
  {
  }

  lemma LastRetryable(m: Machine, fs: Fs, history: seq<Moment>, from: nat, spec: RunnerSpec)
    requires RetryTrace(m, history, from, spec) && |history| > 0 && history[|history| - 1].fs == fs
    ensures from < |history| ==> Retryable(m, fs, spec)
  {
  }

  /** The publication loop. */
  method Publish(root: Workspace, spec: RunnerSpec, stage: Path, sealed: map<string, Path>, pre: map<string, bool>)
    returns (ok: bool)
    requires root.Valid() && Others(root.reserved, spec, stage) && ValidSpec(spec) && Layout(spec)
    requires Staging(stage, spec)
    requires SealedBetween(root.machine, root.fs, spec, stage, 0, |SortedOutputs(spec)|)
    requires forall i :: 0 <= i < |SortedOutputs(spec)| ==>
      SortedOutputs(spec)[i].name in pre &&
      SortedOutputs(spec)[i].name in sealed && sealed[SortedOutputs(spec)[i].name] == Sealed(stage, i)
    modifies root`clock, root`fs, root`history
    ensures Unflagged(root) && EvidenceKept(old(root.fs), root.fs, spec)
    ensures Beside(old(root.fs), root.fs, spec, KeySet(spec.outputs, RunnerPath))
    ensures ManifestRoom(old(root.fs), stage) ==> ManifestRoom(root.fs, stage)
    ensures ok ==> OutputsMatch(root.machine, root.fs, spec)
    ensures Retryable(root.machine, old(root.fs), spec) && StillNoted(root.machine, old(root.fs), spec, pre, 0) ==>
      RetryTrace(root.machine, root.history, |old(root.history)|, spec)
    ensures Healthy(root.machine) && StillNoted(root.machine, old(root.fs), spec, pre, 0) ==> ok
  {
    hide WellFormed, Frame, Trace, FlagTrace, Layout, ValidSpec, Staging, Beside, EvidenceKept, Publishing, StillNoted,
         Retryable, Sealed, SealedRight, Matches, RetryTrace, FineTrace, ManifestRoom, SortedOutputs, KeySet, Healthy,
         OutputsMatch;
    ghost var base, from, flags, m := root.fs, |root.history|, Flags(root.linked, root.recorded), root.machine;
    var outs := SortedOutputs(spec);
    StartPublishing(m, base, root.history, flags, spec, stage);
    ghost var touched: set<string> := {};
    ghost var calm := Retryable(m, base, spec) && StillNoted(m, base, spec, pre, 0);
    for i := 0 to |outs|
      invariant Unflagged(root) && EvidenceKept(base, root.fs, spec)
      invariant Beside(base, root.fs, spec, touched) && touched <= KeySet(spec.outputs, RunnerPath)
      invariant Publishing(m, root.fs, spec, stage, i) && (ManifestRoom(base, stage) ==> ManifestRoom(root.fs, stage))
      invariant calm ==> RetryTrace(m, root.history, from, spec) && Retryable(m, root.fs, spec)
      invariant StillNoted(m, base, spec, pre, 0) ==> StillNoted(m, root.fs, spec, pre, i)
    {
      ghost var mid, before := root.fs, root.history;
      SortedPath(spec, i, i);
      PublishFacts(m, mid, spec, stage, pre, i);
      ok := PublishOne(root, spec, stage, sealed[outs[i].name], pre, i);
      PublishStep(m, mid, root.fs, spec, stage, pre, i);
      RoomKept(mid, root.fs, spec, stage, i);
      TraceFlags(mid, root.history, |before|, flags, {OutputPath(spec, i), Sealed(stage, i)}, {});
      FlagJoin(before, root.history, from, flags);
      BesideTransitive(base, mid, root.fs, spec, touched, {outs[i].path});
      EvidenceTransitive(base, mid, root.fs, spec);
      KeyIn(spec.outputs, outs[i], RunnerPath);
      touched := touched + {outs[i].path};
      if calm {
        RetryStretch(m, mid, root.history, |before|, flags, spec, stage, i);
        RetryJoin(m, before, root.history, from, spec);
        LastRetryable(m, root.fs, root.history, |before|, spec);
      }
      if !ok {
        BesideMore(base, root.fs, spec, touched, KeySet(spec.outputs, RunnerPath));
        return;
      }
    }
    BesideMore(base, root.fs, spec, touched, KeySet(spec.outputs, RunnerPath));
    AllPublished(m, root.fs, spec, stage);
    ok := true;
  }

  lemma BesideMore(a: Fs, b: Fs, spec: RunnerSpec, touched: set<string>, more: set<string>)
    requires Beside(a, b, spec, touched) && touched <= more
    ensures Beside(a, b, spec, more)
  {
  }

  lemma StartPublishing(m: Machine, fs: Fs, history: seq<Moment>, flags: Flags, spec: RunnerSpec, stage: Path)
    ensures FlagTrace(history, |history|, flags) && EvidenceKept(fs, fs, spec) && Beside(fs, fs, spec, {})
    ensures SealedBetween(m, fs, spec, stage, 0, |SortedOutputs(spec)|) ==> Publishing(m, fs, spec, stage, 0)
    ensures RetryTrace(m, history, |history|, spec)
  {
  }

  lemma PublishFacts(m: Machine, fs: Fs, spec: RunnerSpec, stage: Path, pre: map<string, bool>, i: nat)
    requires i < |SortedOutputs(spec)| && Publishing(m, fs, spec, stage, i)
    ensures SealedRight(m, fs, spec, stage, i)
    ensures StillNoted(m, fs, spec, pre, i) ==> Noted(m, fs, SortedOutputs(spec)[i], pre)
  {
  }

  lemma AllPublished(m: Machine, fs: Fs, spec: RunnerSpec, stage: Path)
    requires ValidSpec(spec) && Publishing(m, fs, spec, stage, |SortedOutputs(spec)|)
    ensures OutputsMatch(m, fs, spec)
  {
    OutputsSorted(spec);
    forall a | a in spec.outputs ensures Matches(m, fs, a) {
      var i :| 0 <= i < |SortedOutputs(spec)| && SortedOutputs(spec)[i] == a;
    }
  }

  // ----- the commit point -----

  /** The promise of the commit manifest: in every state in which this run has linked it, each output
      path holds its declared content and the manifest its canonical bytes. */
  ghost predicate CommitHolds(m: Machine, moment: Moment, spec: RunnerSpec) {
    moment.linked ==> OutputsMatch(m, moment.fs, spec) && ManifestExact(m, moment.fs, spec)
  }

  ghost predicate CommitTrace(m: Machine, history: seq<Moment>, from: nat, spec: RunnerSpec) {
    forall k :: from <= k < |history| ==>
      WellFormed(history[k].fs) && history[k].recorded == None && CommitHolds(m, history[k], spec)
  }

  lemma FlagsCommit(m: Machine, history: seq<Moment>, from: nat, spec: RunnerSpec)
    requires FlagTrace(history, from, Flags(false, None))
    ensures CommitTrace(m, history, from, spec)
  {
    forall k | from <= k < |history| ensures !history[k].linked && history[k].recorded == None {
      assert FlagsOf(history[k]) == Flags(false, None);
    }
  }

  lemma CommitJoin(m: Machine, before: seq<Moment>, history: seq<Moment>, from: nat, spec: RunnerSpec)
    requires before <= history && CommitTrace(m, before, from, spec) && CommitTrace(m, history, |before|, spec)
    ensures CommitTrace(m, history, from, spec)
  {
    forall k | from <= k < |history|
      ensures WellFormed(history[k].fs) && history[k].recorded == None && CommitHolds(m, history[k], spec)
    {
      if k < |before| { assert history[k] == before[k]; }
    }
  }

  /** The staged manifest. */
  method StageManifest(root: Workspace, spec: RunnerSpec, stage: Path) returns (ok: bool)
    requires root.Valid() && Clears(root.reserved, stage) && Layout(spec) && Staging(stage, spec)
    modifies root`clock, root`fs, root`history
    ensures Quieted(root, spec) && EvidenceKept(old(root.fs), root.fs, spec)
    ensures ok ==> HoldsBytes(root.fs, ManifestStage(stage), Manifest(root.machine, spec))
    ensures Healthy(root.machine) && IsDir(old(root.fs), stage) && ManifestStage(stage) !in old(root.fs.names) ==> ok
  {
    hide WellFormed, Frame, Trace, Quiet, QuietTrace, Layout, Staging, EvidenceKept, HoldsBytes, CanAdd;
    var p := ManifestStage(stage);
    if IsDir(root.fs, stage) { Reachable(root.fs, stage, "output-commit.json"); }
    InsideStage(stage);
    RootInStage(root.fs, spec, stage, p);
    ok := root.WriteSealed(p, Manifest(root.machine, spec));
    HarmlessTrace(old(root.fs), root.fs, root.history, |old(root.history)|, Flags(root.linked, root.recorded), {p}, {},
                  spec);
    FrameEvidence(old(root.fs), root.fs, {p}, {}, spec);
  }

  lemma InsideStage(stage: Path)
    ensures stage <= ManifestStage(stage)
  {
  }

  lemma LinkStep(a: Fs, source: Path, target: Path, bytes: string)
    requires WellFormed(a) && CanAdd(a, target) && HoldsBytes(a, source, bytes)
    ensures var b := AddLink(a, source, target);
            WellFormed(b) && Frame(a, b, {target, source}, {}) && HoldsBytes(b, target, bytes) && !Blocked(b, target)
  {
    var b := AddLink(a, source, target);
    AddLinkKeeps(a, source, target);
    AncestorsPresent(b, target);
    assert forall p :: Under(p, {target}) ==> Under(p, {target, source});
  }

  lemma LinkedManifest(m: Machine, a: Fs, b: Fs, spec: RunnerSpec, stage: Path)
    requires Layout(spec) && Staging(stage, spec) && WellFormed(a) && CanAdd(a, ManifestPath(spec))
    requires HoldsBytes(a, ManifestStage(stage), Manifest(m, spec))
    requires b == AddLink(a, ManifestStage(stage), ManifestPath(spec))
    ensures WellFormed(b) && Frame(a, b, {ManifestPath(spec), ManifestStage(stage)}, {})
    ensures ManifestExact(m, b, spec) && ManifestFine(m, b, spec) && Beside(a, b, spec, {spec.commitManifestPath})
  {
    LinkStep(a, ManifestStage(stage), ManifestPath(spec), Manifest(m, spec));
    hide WellFormed, Layout, Staging, CanAdd, AddLink, Frame, Mirror, Blocked, Manifest, Beside;
    StepBeside(a, b, spec, stage, spec.commitManifestPath, ManifestStage(stage));
  }

  lemma BesideOutputs(m: Machine, a: Fs, b: Fs, spec: RunnerSpec)
    requires WellFormed(a) && WellFormed(b) && Layout(spec) && Beside(a, b, spec, {spec.commitManifestPath})
    ensures OutputsMatch(m, a, spec) ==> OutputsMatch(m, b, spec)
    ensures InputsMatch(m, a, spec) ==> InputsMatch(m, b, spec)
  {
    forall x | x in spec.outputs ensures Matches(m, a, x) ==> Matches(m, b, x) {
      PathOfArtifact(spec, x);
      OutputsOwnPaths(spec, x);
      BesideMatches(m, a, b, spec, {spec.commitManifestPath}, x, map[]);
    }
    forall x | x in spec.inputs ensures Matches(m, a, x) ==> Matches(m, b, x) {
      PathOfArtifact(spec, x);
      KeyIn(spec.inputs, x, RunnerPath);
      BesideMatches(m, a, b, spec, {spec.commitManifestPath}, x, map[]);
    }
  }

  /** What preparation noted about the manifest still holds. */
  predicate ManifestNoted(m: Machine, fs: Fs, spec: RunnerSpec, existed: bool) {
    (existed <==> ManifestPath(spec) in fs.names) && (existed ==> ManifestExact(m, fs, spec)) &&
    IsDir(fs, Parent(ManifestPath(spec)))
  }

  lemma QuietManifestNoted(m: Machine, a: Fs, b: Fs, spec: RunnerSpec, existed: bool)
    requires WellFormed(a) && WellFormed(b) && Quiet(a, b, spec) && ManifestNoted(m, a, spec, existed)
    ensures ManifestNoted(m, b, spec, existed) && !Blocked(b, ManifestPath(spec))
    ensures (!existed ==> CanAdd(b, ManifestPath(spec)))
  {
    QuietManifest(m, a, b, spec);
    assert spec.commitManifestPath in ArtifactPaths(spec);
    ManifestReachable(m, b, spec, existed);
  }

  lemma ManifestReachable(m: Machine, fs: Fs, spec: RunnerSpec, existed: bool)
    requires WellFormed(fs) && ManifestNoted(m, fs, spec, existed)
    ensures !Blocked(fs, ManifestPath(spec)) && (!existed ==> CanAdd(fs, ManifestPath(spec)))
  {
    var p := ManifestPath(spec);
    AncestorsPresent(fs, Parent(p));
    forall i | 0 <= i < |p| ensures !IsFile(fs, p[..i]) {
      if i < |p| - 1 { assert p[..i] == Parent(p)[..i]; } else { assert p[..i] == Parent(p); }
    }
  }

  /** Publishing the manifest: verified if it was there before the child, otherwise linked last. */
  method LinkManifest(root: Workspace, spec: RunnerSpec, stage: Path, existed: bool) returns (ok: bool)
    requires root.Valid() && Others(root.reserved, spec, stage) && Layout(spec) && Staging(stage, spec) && !root.linked
    requires root.recorded == None
    requires HoldsBytes(root.fs, ManifestStage(stage), Manifest(root.machine, spec))
    requires OutputsMatch(root.machine, root.fs, spec)
    modifies root`clock, root`fs, root`history, root`linked, root`recorded
    ensures root.Valid() && old(root.history) <= root.history && root.recorded == None
    ensures CommitTrace(root.machine, root.history, |old(root.history)|, spec)
    ensures EvidenceKept(old(root.fs), root.fs, spec)
    ensures ok ==> OutputsMatch(root.machine, root.fs, spec) && ManifestExact(root.machine, root.fs, spec)
    ensures ok ==> (InputsMatch(root.machine, old(root.fs), spec) ==> InputsMatch(root.machine, root.fs, spec))
    ensures ok && !existed ==> root.linked
    ensures Retryable(root.machine, old(root.fs), spec) && ManifestNoted(root.machine, old(root.fs), spec, existed) ==>
      RetryTrace(root.machine, root.history, |old(root.history)|, spec)
    ensures Healthy(root.machine) && ManifestNoted(root.machine, old(root.fs), spec, existed) ==> ok
  {
    hide WellFormed, Frame, Trace, Layout, Staging, EvidenceKept, CanAdd, Beside, OutputsMatch, InputsMatch,
         ManifestExact, Retryable, Blocked, Untaken, Clears, Passes, OtherNames;
    ghost var base, m := root.fs, root.machine;
    Unmoved(m, base, root.history, spec);
    ArtifactClears(root.reserved, spec, spec.commitManifestPath);
    if ManifestNoted(m, base, spec, existed) { ManifestReachable(m, base, spec, existed); }
    if existed {
      var exists_;
      ok, exists_ := VerifyExistingManifest(root, spec);
      return ok && exists_;
    }
    var taken;
    ok, taken := root.Exists(ManifestPath(spec));
    if !ok { return; }
    if taken {
      var removed := root.Remove(ManifestPath(spec));
      RemovedManifest(m, base, root.fs, root.history, |old(root.history)|, spec, stage);
      return false;
    }
    ok := root.LinkMarked(ManifestStage(stage), ManifestPath(spec), Flags(true, None));
    if !ok { return; }
    LinkedManifest(m, base, root.fs, spec, stage);
    BesideOutputs(m, base, root.fs, spec);
    LinkedTrace(m, base, root.fs, root.history, |old(root.history)|, spec, stage);
    ok := root.Tick();
  }

  lemma Unmoved(m: Machine, fs: Fs, history: seq<Moment>, spec: RunnerSpec)
    ensures CommitTrace(m, history, |history|, spec) && EvidenceKept(fs, fs, spec)
    ensures RetryTrace(m, history, |history|, spec)
  {
  }

  lemma RemovedManifest(m: Machine, a: Fs, b: Fs, history: seq<Moment>, from: nat, spec: RunnerSpec, stage: Path)
    requires Layout(spec) && Staging(stage, spec)
    requires Trace(a, history, from, Flags(false, None), {ManifestPath(spec)}, {})
    requires Frame(a, b, {ManifestPath(spec)}, {})
    ensures CommitTrace(m, history, from, spec) && EvidenceKept(a, b, spec)
  {
    hide Frame;
    TraceFlags(a, history, from, Flags(false, None), {ManifestPath(spec)}, {});
    FlagsCommit(m, history, from, spec);
    assert spec.commitManifestPath in ArtifactPaths(spec) && spec.evidenceDirectory !in ArtifactPaths(spec);
    assert Apart(ManifestPath(spec), EvidenceDirectory(spec));
    FrameEvidence(a, b, {ManifestPath(spec)}, {}, spec);
  }

  lemma LinkedTrace(m: Machine, a: Fs, b: Fs, history: seq<Moment>, from: nat, spec: RunnerSpec, stage: Path)
    requires Layout(spec) && Staging(stage, spec) && WellFormed(b) && CanAdd(a, ManifestPath(spec))
    requires Frame(a, b, {ManifestPath(spec), ManifestStage(stage)}, {}) && ManifestExact(m, b, spec)
    requires ManifestFine(m, b, spec)
    requires OutputsMatch(m, b, spec) && |history| == from + 1 && history[from] == Moment(b, true, None)
    ensures CommitTrace(m, history, from, spec) && EvidenceKept(a, b, spec)
    ensures Retryable(m, a, spec) ==> RetryTrace(m, history, from, spec)
  {
    hide Frame, OutputsMatch, ManifestExact, WellFormed, Retryable, OutputFine, ManifestFine;
    InsideStage(stage);
    assert spec.commitManifestPath in ArtifactPaths(spec);
    StepBeside(a, b, spec, stage, spec.commitManifestPath, ManifestStage(stage));
    if Retryable(m, a, spec) {
      forall x | x in spec.outputs ensures x.path != spec.commitManifestPath { OutputsOwnPaths(spec, x); }
      RetryStep(m, a, b, spec, stage, spec.commitManifestPath, ManifestStage(stage));
    }
  }

  predicate CommitReady(m: Machine, fs: Fs, spec: RunnerSpec, stage: Path, existed: bool) {
    ManifestNoted(m, fs, spec, existed) && ManifestRoom(fs, stage)
  }

  /** From the staged manifest to the commit point. */
  method CommitOutputs(root: Workspace, spec: RunnerSpec, stage: Path, existed: bool) returns (status: Status)
    requires root.Valid() && Others(root.reserved, spec, stage) && Layout(spec) && Staging(stage, spec) && !root.linked
    requires root.recorded == None
    requires OutputsMatch(root.machine, root.fs, spec)
    modifies root`clock, root`fs, root`history, root`linked, root`recorded
    ensures root.Valid() && old(root.history) <= root.history && root.recorded == None && status in {Go, Infra, Abort}
    ensures CommitTrace(root.machine, root.history, |old(root.history)|, spec)
    ensures EvidenceKept(old(root.fs), root.fs, spec)
    ensures status == Go ==> OutputsMatch(root.machine, root.fs, spec) && ManifestExact(root.machine, root.fs, spec)
    ensures status == Go ==>
      (InputsMatch(root.machine, old(root.fs), spec) ==> InputsMatch(root.machine, root.fs, spec))
    ensures status == Go && !existed ==> root.linked
    ensures Retryable(root.machine, old(root.fs), spec) && ManifestNoted(root.machine, old(root.fs), spec, existed) ==>
      RetryTrace(root.machine, root.history, |old(root.history)|, spec)
    ensures Healthy(root.machine) && CommitReady(root.machine, old(root.fs), spec, stage, existed) ==> status == Go
  {
    hide WellFormed, Frame, Trace, Quiet, QuietTrace, Layout, Staging, EvidenceKept, HoldsBytes, OutputsMatch,
         InputsMatch, ManifestExact, Retryable, ManifestNoted, CommitTrace, RetryTrace, IsDir;
    ghost var base, m := root.fs, root.machine;
    var ok := StageManifest(root, spec, stage);
    ghost var mid, before := root.fs, root.history;
    QuietCommit(m, base, mid, before, |old(root.history)|, spec, existed);
    if !ok { return Abort; }
    ok := LinkManifest(root, spec, stage, existed);
    CommitJoin(m, before, root.history, |old(root.history)|, spec);
    EvidenceTransitive(base, mid, root.fs, spec);
    if Retryable(m, base, spec) && ManifestNoted(m, base, spec, existed) {
      RetryJoin(m, before, root.history, |old(root.history)|, spec);
    }
    status := if ok then Go else Infra;
  }

  lemma QuietCommit(m: Machine, a: Fs, b: Fs, history: seq<Moment>, from: nat, spec: RunnerSpec, existed: bool)
    requires WellFormed(a) && WellFormed(b) && Quiet(a, b, spec)
    requires QuietTrace(a, history, from, Flags(false, None), spec)
    ensures CommitTrace(m, history, from, spec)
    ensures OutputsMatch(m, a, spec) <==> OutputsMatch(m, b, spec)
    ensures InputsMatch(m, a, spec) <==> InputsMatch(m, b, spec)
    ensures ManifestNoted(m, a, spec, existed) ==> ManifestNoted(m, b, spec, existed)
    ensures Retryable(m, a, spec) ==> Retryable(m, b, spec) && RetryTrace(m, history, from, spec)
  {
    hide WellFormed, Quiet, OutputsMatch, InputsMatch, ManifestExact, Retryable, ManifestNoted;
    QuietFlags(a, history, from, Flags(false, None), spec);
    FlagsCommit(m, history, from, spec);
    QuietComplete(m, a, b, spec);
    if ManifestNoted(m, a, spec, existed) { QuietManifestNoted(m, a, b, spec, existed); }
    if Retryable(m, a, spec) {
      QuietRetryable(m, a, b, spec);
      QuietTraceRetryable(m, a, history, from, Flags(false, None), spec);
    }
  }

  lemma QuietFlags(base: Fs, history: seq<Moment>, from: nat, flags: Flags, spec: RunnerSpec)
    requires QuietTrace(base, history, from, flags, spec)
    ensures FlagTrace(history, from, flags)
  {
  }
}
