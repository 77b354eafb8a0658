/** The child process: what it may write, how its end is classified, and the second input check. */
module Children {
  import opened Paths
  import opened Contract
  import opened RunnerSpecs
  import opened FileSystem
  import opened Evidence
  import opened Workspaces
  import opened RunStates
  import opened Preparation

  /** How the child ended, as Wait reports it. */
  datatype Exit = Exited(code: nat) | Signaled(signal: nat) | WaitFailed

  /** The states of the disk the child passes through, last one first seen after it is stopped. */
  datatype Behaviour = Behaviour(states: seq<Fs>, exit: Exit)

  type Child = (Fs, Path) -> Behaviour

  /** Whether the context is cancelled before the start, when the start fails, and after the wait. */
  datatype Context = Context(before: bool, atStart: bool, after: bool)

  /** Any writer leaves a well-formed disk; nothing more is assumed of a child in general. */
  ghost predicate Physical(child: Child) {
    forall fs, stage, k :: WellFormed(fs) && 0 <= k < |child(fs, stage).states| ==>
      WellFormed(child(fs, stage).states[k])
  }

  function ChildRoots(stage: Path): set<Path> { {stage + ["outputs"], stage + ["home"], stage + ["tmp"]} }

  /** A child that writes only to its staged outputs, its HOME and its TMPDIR. */
  ghost predicate Tame(child: Child) {
    forall fs, stage, k :: WellFormed(fs) && 0 <= k < |child(fs, stage).states| ==>
      Frame(fs, child(fs, stage).states[k], ChildRoots(stage), {})
  }

  /** The stage is nobody else's, and if anything is reserved the child keeps to it. */
  ghost predicate Undisturbing(reserved: set<Path>, spec: RunnerSpec, stage: Path, child: Child) {
    Others(reserved, spec, stage) && (reserved == {} || Tame(child))
  }

  lemma ChildSpares(reserved: set<Path>, spec: RunnerSpec, stage: Path, child: Child, fs: Fs)
    requires Undisturbing(reserved, spec, stage, child) && WellFormed(fs) && Free(fs, reserved)
    ensures forall k :: 0 <= k < |child(fs, stage).states| ==> Free(child(fs, stage).states[k], reserved)
  {
    hide WellFormed, Frame, Free, Clears;
    forall k | 0 <= k < |child(fs, stage).states| ensures Free(child(fs, stage).states[k], reserved) {
      if reserved == {} {
        NothingReserved(child(fs, stage).states[k]);
      } else {
        forall p | p in ChildRoots(stage) ensures Clears(reserved, p) { ClearsBelow(reserved, stage, p); }
        FrameFree(fs, child(fs, stage).states[k], ChildRoots(stage), {}, reserved);
      }
    }
  }

  lemma NothingReserved(fs: Fs)
    ensures Free(fs, {})
  {
  }

  function Final(fs: Fs, states: seq<Fs>): Fs { if states == [] then fs else states[|states| - 1] }

  /** The staged copy of the i-th output has the declared digest. */
  predicate StagedRight(m: Machine, fs: Fs, spec: RunnerSpec, stage: Path, i: nat)
    requires i < |SortedOutputs(spec)|
  {
    var a := SortedOutputs(spec)[i];
    DigestAt(m, fs, a.kind, Staged(stage, i)) == Some(a.sha256)
  }

  ghost predicate AllStaged(m: Machine, fs: Fs, spec: RunnerSpec, stage: Path) {
    forall i :: 0 <= i < |SortedOutputs(spec)| ==> StagedRight(m, fs, spec, stage, i)
  }

  /** The disk a child may count on: a retryable workspace, so all inputs match, with a ready stage. */
  ghost predicate ReadyDisk(m: Machine, fs: Fs, spec: RunnerSpec, stage: Path) {
    Retryable(m, fs, spec) && Staging(stage, spec) && ReadyStage(fs, stage)
  }

  /** A child that, started on such a disk, exits 0 with every output staged as declared. */
  ghost predicate Correct(m: Machine, child: Child, spec: RunnerSpec) {
    forall fs, stage :: ReadyDisk(m, fs, spec, stage) ==>
      child(fs, stage).exit == Exited(0) && AllStaged(m, Final(fs, child(fs, stage).states), spec, stage)
  }

  /** runnerExitStatus: the exit code and whether a signal ended the child. */
  function ExitStatus(exit: Exit): (int, bool) {
    match exit
    case Exited(code) => (code, false)
    case Signaled(signal) => (128 + signal, true)
    case WaitFailed => (127, false)
  }

  datatype Verdict = Proceed | Stop(result: string, exitCode: int)

  /** The classification after Wait, before the inputs are hashed again. */
  function Classify(spec: RunnerSpec, exit: Exit, cancelled: bool): Verdict {
    var (code, signaled) := ExitStatus(exit);
    if exit != Exited(0) then
      if cancelled || signaled then Stop(CANCELED, if code == 0 then 130 else code)
      else Stop(spec.nonzeroClass, if code < 1 then 1 else code)
    else if cancelled then Stop(CANCELED, 130)
    else Proceed
  }

  /** Let the child write. Each of its states enters the history. */
  method Writes(root: Workspace, states: seq<Fs>)
    requires root.Valid() && forall k :: 0 <= k < |states| ==> WellFormed(states[k]) && Free(states[k], root.reserved)
    modifies root`fs, root`history
    ensures root.Valid() && root.fs == Final(old(root.fs), states)
    ensures |root.history| == |old(root.history)| + |states| && old(root.history) <= root.history
    ensures forall k :: 0 <= k < |states| ==>
      root.history[|old(root.history)| + k] == Moment(states[k], root.linked, root.recorded)
  {
    hide WellFormed, Free, Untaken;
    for i := 0 to |states|
      invariant root.Valid() && root.fs == Final(old(root.fs), states[..i])
      invariant |root.history| == |old(root.history)| + i && old(root.history) <= root.history
      invariant forall k :: 0 <= k < i ==>
        root.history[|old(root.history)| + k] == Moment(states[k], root.linked, root.recorded)
    {
      root.Install(states[i]);
    }
    assert states[..|states|] == states;
  }

  /** The disk moved through well-formed states and the run's flags stayed as they were. */
  twostate predicate Unflagged(root: Workspace)
    reads root
  {
    root.Valid() && old(root.history) <= root.history && root.linked == old(root.linked) &&
    root.recorded == old(root.recorded) &&
    FlagTrace(root.history, |old(root.history)|, Flags(root.linked, root.recorded))
  }

  ghost predicate FlagTrace(history: seq<Moment>, from: nat, flags: Flags) {
    forall k :: from <= k < |history| ==> WellFormed(history[k].fs) && FlagsOf(history[k]) == flags
  }

  lemma ChildTrace(base: Fs, history: seq<Moment>, from: nat, flags: Flags, states: seq<Fs>, child: Child, stage: Path,
                   exit: Exit)
    requires WellFormed(base) && Physical(child) && child(base, stage) == Behaviour(states, exit)
    requires |history| == from + |states|
    requires forall k :: 0 <= k < |states| ==> history[from + k] == Moment(states[k], flags.linked, flags.recorded)
    ensures FlagTrace(history, from, flags)
    ensures Tame(child) ==>
      Trace(base, history, from, flags, ChildRoots(stage), {}) &&
      Frame(base, Final(base, states), ChildRoots(stage), {})
  {
    hide Frame;
    forall k | from <= k < |history| ensures WellFormed(history[k].fs) && FlagsOf(history[k]) == flags &&
                                             (Tame(child) ==> Frame(base, history[k].fs, ChildRoots(stage), {})) {
      assert history[from + (k - from)] == history[k];
      assert WellFormed(child(base, stage).states[k - from]);
      if Tame(child) { assert Frame(base, child(base, stage).states[k - from], ChildRoots(stage), {}); }
    }
    FrameReflexive(base, ChildRoots(stage), {});
    if Tame(child) && states != [] {
      assert Frame(base, child(base, stage).states[|states| - 1], ChildRoots(stage), {});
    }
  }

  /** The stage when sealing starts. */
  predicate SealReady(fs: Fs, stage: Path) {
    IsDir(fs, stage) && stage + ["sealed"] !in fs.names && ManifestStage(stage) !in fs.names
  }

  lemma TameStage(a: Fs, b: Fs, stage: Path)
    requires Frame(a, b, ChildRoots(stage), {}) && ReadyStage(a, stage)
    ensures SealReady(b, stage)
  {
    forall n | n !in {"outputs", "home", "tmp"} ensures !Under(stage + [n], ChildRoots(stage)) {
      assert (stage + [n])[|stage|] == n;
      assert (stage + ["outputs"])[|stage|] == "outputs" && (stage + ["home"])[|stage|] == "home" &&
        (stage + ["tmp"])[|stage|] == "tmp";
    }
    assert !Under(stage, ChildRoots(stage));
  }

  lemma ChildIsQuiet(base: Fs, now: Fs, history: seq<Moment>, from: nat, flags: Flags, spec: RunnerSpec, stage: Path)
    requires WellFormed(base) && Layout(spec) && Staging(stage, spec)
    requires Trace(base, history, from, flags, ChildRoots(stage), {}) && Frame(base, now, ChildRoots(stage), {})
    ensures QuietTrace(base, history, from, flags, spec) && Quiet(base, now, spec) && EvidenceKept(base, now, spec)
  {
    forall r | r in ChildRoots(stage) ensures stage <= r && Apart(r, EvidenceDirectory(spec)) {
      StageApart(stage, spec, r);
    }
    HarmlessStage(base, stage, ChildRoots(stage), {}, spec);
    HarmlessTrace(base, now, history, from, flags, ChildRoots(stage), {}, spec);
    FrameEvidence(base, now, ChildRoots(stage), {}, spec);
  }

  /** Start, Wait, and stop the process group: the child writes until it is stopped. */
  method Launch(root: Workspace, spec: RunnerSpec, stage: Path, child: Child) returns (exit: Exit)
    requires root.Valid() && Undisturbing(root.reserved, spec, stage, child) && Layout(spec) && Staging(stage, spec)
    requires Physical(child)
    modifies root`fs, root`history
    ensures Unflagged(root)
    ensures Tame(child) ==> Quieted(root, spec) && EvidenceKept(old(root.fs), root.fs, spec)
    ensures Tame(child) && ReadyStage(old(root.fs), stage) ==> SealReady(root.fs, stage)
    ensures exit == child(old(root.fs), stage).exit && root.fs == Final(old(root.fs), child(old(root.fs), stage).states)
  {
    hide Frame, Trace, Quiet, QuietTrace, Layout, EvidenceKept, ReadyStage, SealReady, Staging, Physical, Tame, Final,
         WellFormed, FlagTrace, Undisturbing, Free, Untaken;
    ghost var base, flags := root.fs, Flags(root.linked, root.recorded);
    var behaviour := child(root.fs, stage);
    PhysicalStates(child, base, stage);
    NowFree(root.history, base, root.reserved);
    ChildSpares(root.reserved, spec, stage, child, base);
    Writes(root, behaviour.states);
    exit := behaviour.exit;
    ChildTrace(base, root.history, |old(root.history)|, flags, behaviour.states, child, stage, exit);
    if Tame(child) {
      ChildIsQuiet(base, root.fs, root.history, |old(root.history)|, flags, spec, stage);
      if ReadyStage(base, stage) { TameStage(base, root.fs, stage); }
    }
  }

  /** A command that could not be started. */
  function NotStarted(ctx: Context): Verdict { if ctx.atStart then Stop(CANCELED, 130) else Stop(INFRA_FAIL, 127) }

  /** From the context check before Start to the second hash of the inputs. Start fails in a working
      directory that is a file. */
  method RunChild(root: Workspace, spec: RunnerSpec, stage: Path, child: Child, ctx: Context)
    returns (verdict: Verdict, ghost launched: Option<Fs>)
    requires root.Valid() && Undisturbing(root.reserved, spec, stage, child) && Layout(spec) && Staging(stage, spec)
    requires Physical(child) && spec.nonzeroClass in {TEST_FAIL, INFRA_FAIL}
    modifies root`clock, root`fs, root`history
    ensures Unflagged(root)
    ensures Tame(child) ==> Quieted(root, spec) && EvidenceKept(old(root.fs), root.fs, spec)
    ensures Tame(child) && ReadyStage(old(root.fs), stage) ==> SealReady(root.fs, stage)
    ensures launched == None || launched == Some(old(root.fs))
    ensures verdict == Proceed ==> launched.Some? && InputsMatch(root.machine, root.fs, spec)
    ensures verdict.Stop? ==>
      verdict.result in {CANCELED, INFRA_FAIL, spec.nonzeroClass} && ValidResult(verdict.result, Some(verdict.exitCode))
    ensures launched == None ==> root.fs == old(root.fs) && root.history == old(root.history)
    ensures launched.Some? ==> Seated(old(root.fs), spec)
    ensures Healthy(root.machine) && !ctx.before ==>
      (if Seated(old(root.fs), spec) then launched.Some? else verdict == NotStarted(ctx))
    ensures launched.Some? && Classify(spec, child(old(root.fs), stage).exit, ctx.after).Stop? ==>
      verdict == Classify(spec, child(old(root.fs), stage).exit, ctx.after)
    ensures launched.Some? ==> root.fs == Final(old(root.fs), child(old(root.fs), stage).states)
    ensures Healthy(root.machine) && launched.Some? &&
            Classify(spec, child(old(root.fs), stage).exit, ctx.after) == Proceed ==>
      (verdict == Proceed <==> InputsMatch(root.machine, root.fs, spec))
  {
    hide Frame, Trace, Quiet, QuietTrace, FlagTrace, Layout, EvidenceKept, InputsMatch, ReadyStage, SealReady, Staging,
         Physical, Tame, Classify, Final, WellFormed, Undisturbing, Untaken, WorkingDirectory, IsDir;
    launched := None;
    if ctx.before {
      Idle(root.fs, root.history, Flags(root.linked, root.recorded), spec, stage);
      return Stop(CANCELED, 130), launched;
    }
    var started := root.Tick();
    if !started || !Seated(root.fs, spec) {
      Idle(root.fs, root.history, Flags(root.linked, root.recorded), spec, stage);
      return NotStarted(ctx), launched;
    }
    launched := Some(root.fs);
    var exit := Launch(root, spec, stage, child);
    verdict := Judge(root, spec, exit, ctx.after);
  }

  /** What the end of the child means: its own failure, or the inputs hashed again. */
  method Judge(root: Workspace, spec: RunnerSpec, exit: Exit, cancelled: bool) returns (verdict: Verdict)
    requires spec.nonzeroClass in {TEST_FAIL, INFRA_FAIL}
    modifies root`clock
    ensures verdict == Proceed ==> InputsMatch(root.machine, root.fs, spec)
    ensures verdict.Stop? ==>
      verdict.result in {CANCELED, INFRA_FAIL, spec.nonzeroClass} && ValidResult(verdict.result, Some(verdict.exitCode))
    ensures Classify(spec, exit, cancelled).Stop? ==> verdict == Classify(spec, exit, cancelled)
    ensures Healthy(root.machine) && Classify(spec, exit, cancelled) == Proceed ==>
      (verdict == Proceed <==> InputsMatch(root.machine, root.fs, spec))
  {
    hide InputsMatch;
    verdict := Classify(spec, exit, cancelled);
    if verdict.Stop? { return; }
    var ok := VerifyInputs(root, spec);
    if !ok { verdict := Stop(INFRA_FAIL, 70); }
  }

  lemma Idle(fs: Fs, history: seq<Moment>, flags: Flags, spec: RunnerSpec, stage: Path)
    ensures FlagTrace(history, |history|, flags) && QuietTrace(fs, history, |history|, flags, spec)
    ensures Quiet(fs, fs, spec) && EvidenceKept(fs, fs, spec) && (ReadyStage(fs, stage) ==> SealReady(fs, stage))
  {
  }

  lemma PhysicalStates(child: Child, fs: Fs, stage: Path)
    requires Physical(child) && WellFormed(fs)
    ensures forall k :: 0 <= k < |child(fs, stage).states| ==> WellFormed(child(fs, stage).states[k])
  {
  }
}
