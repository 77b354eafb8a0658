/** What a task run may rely on and must keep, as predicates on states of the disk. */
module RunStates {
  import opened Order
  import opened Paths
  import opened Contract
  import opened RunnerSpecs
  import opened FileSystem
  import opened Evidence
  import opened Workspaces

  // ----- places -----

  function WorkingDirectory(spec: RunnerSpec): Path {
    if spec.workingDirectory == "." then [] else Split(spec.workingDirectory)
  }

  function EvidenceDirectory(spec: RunnerSpec): Path { Split(spec.evidenceDirectory) }

  function ManifestPath(spec: RunnerSpec): Path { Split(spec.commitManifestPath) }

  function EvidencePath(spec: RunnerSpec, uid: string): Path { EvidenceDirectory(spec) + [uid + ".json"] }

  function EvidenceStage(spec: RunnerSpec, uid: string, nonce: string): Path {
    EvidenceDirectory(spec) + ["." + uid + "." + nonce + ".tmp"]
  }

  function StagePath(uid: string, nonce: string): Path { [STAGING, uid + "-" + nonce] }

  function SortedOutputs(spec: RunnerSpec): seq<RunnerArtifact> { SortBy(spec.outputs, RunnerName) }

  /** %03d */
  function Digits(n: nat): string
  {
    if n < 10 then [('0' as int + n) as char] else Digits(n / 10) + [('0' as int + n % 10) as char]
  }

  function Pad3(n: nat): string {
    if n < 10 then "00" + Digits(n) else if n < 100 then "0" + Digits(n) else Digits(n)
  }

  function Number(s: string): int {
    if s == [] then 0 else 10 * Number(s[..|s| - 1]) + (s[|s| - 1] as int - '0' as int)
  }

  function Staged(stage: Path, i: nat): Path { stage + ["outputs", Pad3(i)] }

  function Sealed(stage: Path, i: nat): Path { stage + ["sealed", Pad3(i)] }

  function ManifestStage(stage: Path): Path { stage + ["output-commit.json"] }

  lemma {:induction false} NumberDigits(n: nat)
    ensures Number(Digits(n)) == n
  {
    var s := Digits(n);
    if n < 10 {
      assert s[..|s| - 1] == [];
    } else {
      NumberDigits(n / 10);
      assert s[..|s| - 1] == Digits(n / 10);
    }
  }

  lemma {:induction false} NumberZero(s: string)
    ensures Number("0" + s) == Number(s)
  {
    var t := "0" + s;
    if s == [] {
      assert t[..|t| - 1] == [];
    } else {
      NumberZero(s[..|s| - 1]);
      assert t[..|t| - 1] == "0" + s[..|s| - 1];
    }
  }

  /** Stage file names never collide. */
  lemma Pad3Injective(i: nat, j: nat)
    ensures Pad3(i) == Pad3(j) <==> i == j
  {
    Pad3Number(i);
    Pad3Number(j);
  }

  lemma Pad3Number(i: nat)
    ensures Number(Pad3(i)) == i
  {
    NumberDigits(i);
    NumberZero(Digits(i));
    NumberZero("0" + Digits(i));
    assert "00" + Digits(i) == "0" + ("0" + Digits(i));
  }

  // ----- properties of one state -----

  predicate Matches(m: Machine, fs: Fs, a: RunnerArtifact) {
    DigestAt(m, fs, a.kind, Split(a.path)) == Some(a.sha256)
  }

  ghost predicate OutputsMatch(m: Machine, fs: Fs, spec: RunnerSpec) {
    forall a :: a in spec.outputs ==> Matches(m, fs, a)
  }

  ghost predicate InputsMatch(m: Machine, fs: Fs, spec: RunnerSpec) {
    forall a :: a in spec.inputs ==> Matches(m, fs, a)
  }

  function PortableOutputs(spec: RunnerSpec): seq<Artifact> { Map(Portable, spec.outputs) }

  function Manifest(m: Machine, spec: RunnerSpec): string { ManifestBytes(m.codec, PortableOutputs(spec)) }

  predicate ManifestExact(m: Machine, fs: Fs, spec: RunnerSpec) {
    HoldsBytes(fs, ManifestPath(spec), Manifest(m, spec))
  }

  /** Outputs, manifest and inputs all hold what the spec declares. */
  ghost predicate Complete(m: Machine, fs: Fs, spec: RunnerSpec) {
    OutputsMatch(m, fs, spec) && ManifestExact(m, fs, spec) && InputsMatch(m, fs, spec)
  }

  /** An output path is free, or holds its declared content. */
  predicate OutputFine(m: Machine, fs: Fs, a: RunnerArtifact) {
    !Blocked(fs, Split(a.path)) && (Split(a.path) in fs.names ==> Matches(m, fs, a))
  }

  predicate ManifestFine(m: Machine, fs: Fs, spec: RunnerSpec) {
    !Blocked(fs, ManifestPath(spec)) && (ManifestPath(spec) in fs.names ==> ManifestExact(m, fs, spec))
  }

  /** A command can be started in the working directory: it is a directory, not a file. */
  predicate Seated(fs: Fs, spec: RunnerSpec) { IsDir(fs, WorkingDirectory(spec)) }

  /** The state a stopped or failed run of this spec may leave for the next one. */
  ghost predicate Resumable(m: Machine, fs: Fs, spec: RunnerSpec) {
    WellFormed(fs) && InputsMatch(m, fs, spec) && WorkingDirectory(spec) in fs.names &&
    (forall a :: a in spec.outputs ==> OutputFine(m, fs, a)) && ManifestFine(m, fs, spec) &&
    !Blocked(fs, EvidenceDirectory(spec)) && !IsFile(fs, EvidenceDirectory(spec)) && !IsFile(fs, [STAGING])
  }

  /** Such a state in which the command can be started. */
  ghost predicate Retryable(m: Machine, fs: Fs, spec: RunnerSpec) { Resumable(m, fs, spec) && Seated(fs, spec) }

  // ----- quiet steps -----

  /** From a to b nothing happened to any artifact or manifest path, nor on the way to one. */
  ghost predicate Gentle(a: Fs, b: Fs, spec: RunnerSpec) {
    (forall p :: p in ArtifactPaths(spec) ==>
      Same(a, b, Split(p)) && (!Blocked(a, Split(p)) ==> !Blocked(b, Split(p))) &&
      (IsDir(a, Parent(Split(p))) ==> IsDir(b, Parent(Split(p))))) &&
    (!Blocked(a, EvidenceDirectory(spec)) ==> !Blocked(b, EvidenceDirectory(spec))) &&
    (!IsFile(a, EvidenceDirectory(spec)) ==> !IsFile(b, EvidenceDirectory(spec))) &&
    (!IsFile(a, [STAGING]) ==> !IsFile(b, [STAGING]))
  }

  // ----- the names of other runs -----

  /** What is reserved lies within staging or within the evidence directory. */
  ghost predicate OtherNames(reserved: set<Path>, spec: RunnerSpec) {
    forall r :: r in reserved ==> Inside(r, [STAGING]) || Inside(r, EvidenceDirectory(spec))
  }

  /** Nothing reserved has to do with the stage either. */
  ghost predicate Others(reserved: set<Path>, spec: RunnerSpec, stage: Path) {
    OtherNames(reserved, spec) && Clears(reserved, stage)
  }

  lemma ArtifactClears(reserved: set<Path>, spec: RunnerSpec, p: string)
    requires Layout(spec) && OtherNames(reserved, spec) && p in ArtifactPaths(spec)
    ensures Clears(reserved, Split(p)) && Passes(reserved, Parent(Split(p)))
  {
    var y := Split(p);
    assert Apart(y, [STAGING]) && Apart(y, EvidenceDirectory(spec));
    forall r | r in reserved ensures Apart(y, r) && !(r <= Parent(y)) {
      var top := if Inside(r, [STAGING]) then [STAGING] else EvidenceDirectory(spec);
      assert top <= r && Apart(y, top);
      if r <= y { PrefixTransitive(top, r, y); }
      if y <= r { PrefixesCompare(y, top, r); }
    }
  }

  /** Nor did the working directory disappear or change its kind. */
  ghost predicate Quiet(a: Fs, b: Fs, spec: RunnerSpec) {
    Gentle(a, b, spec) && (WorkingDirectory(spec) in a.names ==>
                           WorkingDirectory(spec) in b.names && (Seated(a, spec) <==> Seated(b, spec)))
  }

  predicate Inside(p: Path, top: Path) { top <= p && p != top }

  /** Changes below staging or the evidence directory, and directories leading to no artifact. */
  ghost predicate Mild(roots: set<Path>, dirs: set<Path>, spec: RunnerSpec) {
    (forall r :: r in roots ==> Inside(r, [STAGING]) || Inside(r, EvidenceDirectory(spec))) &&
    forall d, p :: d in dirs && p in ArtifactPaths(spec) ==> !(Split(p) <= d)
  }

  /** Such changes that also miss the working directory. */
  ghost predicate Harmless(fs: Fs, roots: set<Path>, dirs: set<Path>, spec: RunnerSpec) {
    Mild(roots, dirs, spec) && forall r :: r in roots && r <= WorkingDirectory(spec) ==> r !in fs.names
  }

  lemma QuietReflexive(fs: Fs, spec: RunnerSpec)
    ensures Quiet(fs, fs, spec)
  {
  }

  lemma QuietTransitive(a: Fs, b: Fs, c: Fs, spec: RunnerSpec)
    requires Quiet(a, b, spec) && Quiet(b, c, spec)
    ensures Quiet(a, c, spec)
  {
  }

  lemma OutsideRoots(roots: set<Path>, spec: RunnerSpec, p: string, q: Path)
    requires Layout(spec) && Mild(roots, {}, spec)
    requires p in ArtifactPaths(spec) + {spec.evidenceDirectory} && q <= Split(p)
    ensures !Under(q, roots)
  {
    forall r | r in roots ensures !(r <= q) {
      if r <= q { PrefixTransitive(r, q, Split(p)); }
    }
  }

  lemma PrefixTransitive(p: Path, q: Path, r: Path)
    requires p <= q && q <= r
    ensures p <= r
  {
  }

  lemma SparedArtifact(roots: set<Path>, dirs: set<Path>, spec: RunnerSpec, p: string)
    requires Layout(spec) && Mild(roots, dirs, spec) && p in ArtifactPaths(spec)
    ensures Spared(Split(p), roots, dirs)
  {
    forall r | r in roots ensures Apart(r, Split(p)) {
      var top := if Inside(r, [STAGING]) then [STAGING] else EvidenceDirectory(spec);
      if Split(p) <= r { PrefixesCompare(Split(p), top, r); }
    }
  }

  lemma StaysUnblocked(a: Fs, b: Fs, roots: set<Path>, dirs: set<Path>, spec: RunnerSpec, p: string)
    requires Layout(spec) && Mild(roots, dirs, spec) && Frame(a, b, roots, dirs)
    requires p in ArtifactPaths(spec) + {spec.evidenceDirectory}
    ensures !Blocked(a, Split(p)) ==> !Blocked(b, Split(p))
    ensures Split(p) != [] && IsDir(a, Parent(Split(p))) ==> IsDir(b, Parent(Split(p)))
  {
    forall i | 0 <= i <= |Split(p)| ensures !Under(Split(p)[..i], roots) {
      OutsideRoots(roots, spec, p, Split(p)[..i]);
    }
    if !Blocked(a, Split(p)) {
      forall i | 0 <= i < |Split(p)| ensures !IsFile(b, Split(p)[..i]) {
        assert !IsFile(a, Split(p)[..i]);
      }
    }
  }

  lemma StaysNonFile(a: Fs, b: Fs, roots: set<Path>, dirs: set<Path>, q: Path)
    requires Frame(a, b, roots, dirs) && !Under(q, roots)
    ensures !IsFile(a, q) ==> !IsFile(b, q)
  {
  }

  lemma MildGentle(a: Fs, b: Fs, roots: set<Path>, dirs: set<Path>, spec: RunnerSpec)
    requires Layout(spec) && Mild(roots, dirs, spec) && Frame(a, b, roots, dirs)
    ensures Gentle(a, b, spec)
  {
    forall p | p in ArtifactPaths(spec)
      ensures Same(a, b, Split(p)) && (!Blocked(a, Split(p)) ==> !Blocked(b, Split(p))) &&
              (IsDir(a, Parent(Split(p))) ==> IsDir(b, Parent(Split(p))))
    {
      SparedArtifact(roots, dirs, spec, p);
      FrameSame(a, b, roots, dirs, Split(p));
      StaysUnblocked(a, b, roots, dirs, spec, p);
    }
    var ev := spec.evidenceDirectory;
    StaysUnblocked(a, b, roots, dirs, spec, ev);
    OutsideRoots(roots, spec, ev, Split(ev));
    StaysNonFile(a, b, roots, dirs, Split(ev));
    assert !Under([STAGING], roots);
    StaysNonFile(a, b, roots, dirs, [STAGING]);
  }

  /** A step that frames harmless places is quiet. */
  lemma HarmlessQuiet(a: Fs, b: Fs, roots: set<Path>, dirs: set<Path>, spec: RunnerSpec)
    requires WellFormed(a) && Layout(spec) && Harmless(a, roots, dirs, spec) && Frame(a, b, roots, dirs)
    ensures Quiet(a, b, spec)
  {
    MildGentle(a, b, roots, dirs, spec);
    var wd := WorkingDirectory(spec);
    if wd in a.names && Under(wd, roots) {
      var r :| r in roots && r <= wd;
      if r != wd { AncestorIsDir(a, r, wd); }
    }
  }

  lemma GentleMatches(m: Machine, a: Fs, b: Fs, spec: RunnerSpec, x: RunnerArtifact)
    requires WellFormed(a) && WellFormed(b) && Gentle(a, b, spec) && x.path in ArtifactPaths(spec)
    ensures Matches(m, a, x) <==> Matches(m, b, x)
    ensures Split(x.path) in a.names <==> Split(x.path) in b.names
  {
    SameDigest(m, x.kind, a, b, Split(x.path));
    assert Split(x.path) <= Split(x.path);
  }

  lemma PathOfArtifact(spec: RunnerSpec, x: RunnerArtifact)
    requires x in spec.inputs || x in spec.outputs
    ensures x.path in ArtifactPaths(spec)
  {
    if x in spec.inputs {
      var i :| 0 <= i < |spec.inputs| && spec.inputs[i] == x;
      assert RunnerPath(spec.inputs[i]) == x.path;
    } else {
      var i :| 0 <= i < |spec.outputs| && spec.outputs[i] == x;
      assert RunnerPath(spec.outputs[i]) == x.path;
    }
  }

  lemma GentleManifest(m: Machine, a: Fs, b: Fs, spec: RunnerSpec)
    requires WellFormed(a) && WellFormed(b) && Gentle(a, b, spec)
    ensures ManifestExact(m, a, spec) <==> ManifestExact(m, b, spec)
    ensures ManifestPath(spec) in a.names <==> ManifestPath(spec) in b.names
  {
    var p := ManifestPath(spec);
    assert spec.commitManifestPath in ArtifactPaths(spec) && Same(a, b, p) && p <= p;
  }

  lemma GentleComplete(m: Machine, a: Fs, b: Fs, spec: RunnerSpec)
    requires WellFormed(a) && WellFormed(b) && Gentle(a, b, spec)
    ensures OutputsMatch(m, a, spec) <==> OutputsMatch(m, b, spec)
    ensures InputsMatch(m, a, spec) <==> InputsMatch(m, b, spec)
    ensures ManifestExact(m, a, spec) <==> ManifestExact(m, b, spec)
  {
    GentleManifest(m, a, b, spec);
    forall x | x in spec.inputs || x in spec.outputs ensures Matches(m, a, x) <==> Matches(m, b, x) {
      PathOfArtifact(spec, x);
      GentleMatches(m, a, b, spec, x);
    }
  }

  lemma QuietMatches(m: Machine, a: Fs, b: Fs, spec: RunnerSpec, x: RunnerArtifact)
    requires WellFormed(a) && WellFormed(b) && Quiet(a, b, spec) && x.path in ArtifactPaths(spec)
    ensures Matches(m, a, x) <==> Matches(m, b, x)
    ensures Split(x.path) in a.names <==> Split(x.path) in b.names
  {
    hide Gentle, WellFormed, Matches;
    GentleMatches(m, a, b, spec, x);
  }

  lemma QuietManifest(m: Machine, a: Fs, b: Fs, spec: RunnerSpec)
    requires WellFormed(a) && WellFormed(b) && Quiet(a, b, spec)
    ensures ManifestExact(m, a, spec) <==> ManifestExact(m, b, spec)
    ensures ManifestPath(spec) in a.names <==> ManifestPath(spec) in b.names
  {
    hide Gentle, WellFormed, ManifestExact;
    GentleManifest(m, a, b, spec);
  }

  lemma QuietComplete(m: Machine, a: Fs, b: Fs, spec: RunnerSpec)
    requires WellFormed(a) && WellFormed(b) && Quiet(a, b, spec)
    ensures OutputsMatch(m, a, spec) <==> OutputsMatch(m, b, spec)
    ensures InputsMatch(m, a, spec) <==> InputsMatch(m, b, spec)
    ensures ManifestExact(m, a, spec) <==> ManifestExact(m, b, spec)
  {
    hide Gentle, WellFormed, OutputsMatch, InputsMatch, ManifestExact;
    GentleComplete(m, a, b, spec);
  }

  /** Quiet steps keep a workspace retryable. */
  lemma QuietRetryable(m: Machine, a: Fs, b: Fs, spec: RunnerSpec)
    requires Retryable(m, a, spec) && WellFormed(b) && Quiet(a, b, spec)
    ensures Retryable(m, b, spec)
  {
    QuietResumable(m, a, b, spec);
  }

  lemma QuietResumable(m: Machine, a: Fs, b: Fs, spec: RunnerSpec)
    requires Resumable(m, a, spec) && WellFormed(b) && Quiet(a, b, spec)
    ensures Resumable(m, b, spec) && (Seated(a, spec) <==> Seated(b, spec))
  {
    QuietComplete(m, a, b, spec);
    QuietManifest(m, a, b, spec);
    assert spec.commitManifestPath in ArtifactPaths(spec);
    forall x | x in spec.outputs ensures OutputFine(m, b, x) {
      PathOfArtifact(spec, x);
      QuietMatches(m, a, b, spec, x);
    }
  }

  // ----- the evidence directory's contents -----

  /** Nothing new appeared inside the evidence directory. */
  ghost predicate EvidenceKept(a: Fs, b: Fs, spec: RunnerSpec) {
    forall q :: Inside(q, EvidenceDirectory(spec)) && q in b.names ==> q in a.names
  }

  /** Neither staging nor the evidence directory was touched. */
  ghost predicate Aside(a: Fs, b: Fs, spec: RunnerSpec) {
    Same(a, b, [STAGING]) && EvidenceKept(a, b, spec)
  }

  lemma FrameEvidence(a: Fs, b: Fs, roots: set<Path>, dirs: set<Path>, spec: RunnerSpec)
    requires Frame(a, b, roots, dirs)
    requires forall r :: r in roots ==> Apart(r, EvidenceDirectory(spec))
    requires forall d :: d in dirs ==> !Inside(d, EvidenceDirectory(spec))
    ensures EvidenceKept(a, b, spec)
  {
    var ev := EvidenceDirectory(spec);
    forall q | Inside(q, ev) && q in b.names ensures q in a.names {
      forall r | r in roots ensures !(r <= q) {
        if r <= q { PrefixesCompare(r, ev, q); }
      }
      forall d | d in dirs ensures !(q <= d) {
        if q <= d { PrefixTransitive(ev, q, d); }
      }
    }
  }

  lemma AsideReflexive(a: Fs, spec: RunnerSpec)
    ensures Aside(a, a, spec)
  {
  }

  lemma AsideTransitive(a: Fs, b: Fs, c: Fs, spec: RunnerSpec)
    requires Aside(a, b, spec) && Aside(b, c, spec)
    ensures Aside(a, c, spec)
  {
  }

  lemma EvidenceTransitive(a: Fs, b: Fs, c: Fs, spec: RunnerSpec)
    requires EvidenceKept(a, b, spec) && EvidenceKept(b, c, spec)
    ensures EvidenceKept(a, c, spec)
  {
  }

  // ----- stretches of quiet history -----

  ghost predicate QuietTrace(base: Fs, history: seq<Moment>, from: nat, flags: Flags, spec: RunnerSpec) {
    forall k :: from <= k < |history| ==>
      WellFormed(history[k].fs) && Quiet(base, history[k].fs, spec) && FlagsOf(history[k]) == flags
  }

  lemma QuietStart(fs: Fs, history: seq<Moment>, flags: Flags, spec: RunnerSpec)
    ensures QuietTrace(fs, history, |history|, flags, spec) && Quiet(fs, fs, spec)
  {
  }

  /** One more stretch of quiet history. */
  lemma QuietThen(base: Fs, mid: Fs, now: Fs, before: seq<Moment>, history: seq<Moment>, from: nat, flags: Flags,
                  spec: RunnerSpec)
    requires before <= history && QuietTrace(base, before, from, flags, spec) && Quiet(base, mid, spec)
    requires QuietTrace(mid, history, |before|, flags, spec) && Quiet(mid, now, spec)
    ensures QuietTrace(base, history, from, flags, spec) && Quiet(base, now, spec)
  {
    hide Quiet;
    QuietTransitive(base, mid, now, spec);
    forall k | from <= k < |history|
      ensures WellFormed(history[k].fs) && Quiet(base, history[k].fs, spec) && FlagsOf(history[k]) == flags
    {
      if k < |before| { assert history[k] == before[k]; } else { QuietTransitive(base, mid, history[k].fs, spec); }
    }
  }

  /** A stretch that frames harmless places is quiet. */
  lemma HarmlessTrace(base: Fs, now: Fs, history: seq<Moment>, from: nat, flags: Flags, roots: set<Path>,
                      dirs: set<Path>, spec: RunnerSpec)
    requires WellFormed(base) && Layout(spec) && Harmless(base, roots, dirs, spec)
    requires Trace(base, history, from, flags, roots, dirs) && Frame(base, now, roots, dirs)
    ensures QuietTrace(base, history, from, flags, spec) && Quiet(base, now, spec)
  {
    hide Quiet, Frame, Harmless;
    HarmlessQuiet(base, now, roots, dirs, spec);
    forall k | from <= k < |history| ensures Quiet(base, history[k].fs, spec) {
      HarmlessQuiet(base, history[k].fs, roots, dirs, spec);
    }
  }

  /** A quiet stretch from a retryable state is retryable throughout. */
  lemma QuietTraceRetryable(m: Machine, base: Fs, history: seq<Moment>, from: nat, flags: Flags, spec: RunnerSpec)
    requires QuietTrace(base, history, from, flags, spec) && Retryable(m, base, spec)
    ensures forall k :: from <= k < |history| ==> Retryable(m, history[k].fs, spec)
  {
    hide Quiet, Retryable;
    forall k | from <= k < |history| ensures Retryable(m, history[k].fs, spec) {
      QuietRetryable(m, base, history[k].fs, spec);
    }
  }

  /** The disk moved only through states quiet for this spec. */
  twostate predicate Quieted(root: Workspace, spec: RunnerSpec)
    reads root
  {
    root.Valid() && old(root.history) <= root.history && root.linked == old(root.linked) &&
    root.recorded == old(root.recorded) &&
    Quiet(old(root.fs), root.fs, spec) &&
    QuietTrace(old(root.fs), root.history, |old(root.history)|, Flags(root.linked, root.recorded), spec)
  }
}
