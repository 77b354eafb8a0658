/** Runs of one spec, one after another, each stopped anywhere or run to its end. */
module Campaigns {
  import opened Paths
  import opened Contract
  import opened RunnerSpecs
  import opened FileSystem
  import opened Workspaces
  import opened RunStates
  import opened ChildEnvironment
  import opened Children
  import opened Preparation
  import opened Records
  import opened Runner

  /** One run: its identity, what its surroundings do to it, its child, and after how many states of the
      disk it stops. */
  datatype Attempt = Attempt(
    workspace: string, argv: seq<string>, meta: Metadata, chances: Chances, child: Child, ctx: Context,
    faults: nat -> bool, cut: nat -> nat, stop: nat)

  /** Digests and encoders are the same for all runs; faults are not. */
  function MachineFor(m: Machine, a: Attempt): Machine { m.(faults := a.faults, cut := a.cut) }

  lemma RetryableElsewhere(m: Machine, a: Attempt, fs: Fs, spec: RunnerSpec)
    ensures Resumable(m, fs, spec) <==> Resumable(MachineFor(m, a), fs, spec)
    ensures Retryable(m, fs, spec) <==> Retryable(MachineFor(m, a), fs, spec)
  {
    var n := MachineFor(m, a);
    assert forall kind, p :: DigestAt(m, fs, kind, p) == DigestAt(n, fs, kind, p);
    assert forall x :: Matches(m, fs, x) <==> Matches(n, fs, x);
    assert forall x :: OutputFine(m, fs, x) <==> OutputFine(n, fs, x);
  }

  /** A child that behaves earns a pass. */
  lemma CorrectPasses(m: Machine, spec: RunnerSpec, child: Child, fs: Fs, stage: Path, ctx: Context)
    requires Correct(m, child, spec) && ReadyDisk(m, fs, spec, stage) && !ctx.after
    ensures Expected(m, spec, child, fs, stage, ctx) == ReportOf(m, spec, Go)
  {
    hide ReadyDisk, AllStaged, Final;
    assert child(fs, stage).exit == Exited(0) && AllStaged(m, Final(fs, child(fs, stage).states), spec, stage);
  }

  /** The names a run uses are not on the disk yet. */
  predicate NewNames(fs: Fs, spec: RunnerSpec, uid: string, chances: Chances) {
    StagePath(uid, chances.stageNonce) !in fs.names && EvidencePath(spec, uid) !in fs.names &&
    EvidenceStage(spec, uid, chances.evidenceNonce) !in fs.names
  }

  /** The names a run of this identity uses. */
  function NamesOf(spec: RunnerSpec, uid: string, chances: Chances): set<Path> {
    {StagePath(uid, chances.stageNonce), EvidencePath(spec, uid), EvidenceStage(spec, uid, chances.evidenceNonce)}
  }

  lemma NewIsFree(fs: Fs, spec: RunnerSpec, uid: string, chances: Chances)
    ensures NewNames(fs, spec, uid, chances) <==> Free(fs, NamesOf(spec, uid, chances))
  {
    hide EvidencePath, EvidenceStage, StagePath;
    var names := NamesOf(spec, uid, chances);
    assert StagePath(uid, chances.stageNonce) in names && EvidencePath(spec, uid) in names &&
      EvidenceStage(spec, uid, chances.evidenceNonce) in names;
  }

  /** Runs of different pods share no name: pod UIDs all have the same length. */
  lemma OtherPods(spec: RunnerSpec, uid: string, chances: Chances, other: string, theirs: Chances)
    requires Layout(spec) && PodUid(uid) && PodUid(other) && uid != other
    ensures var reserved := NamesOf(spec, other, theirs);
            Others(reserved, spec, StagePath(uid, chances.stageNonce)) &&
            RecordClears(reserved, spec, uid, chances.evidenceNonce)
  {
    hide PodUid, Layout;
    assert |uid| == |other| == 36 by { UidLength(uid); UidLength(other); }
    var e := EvidenceDirectory(spec);
    assert Apart(e, [STAGING]) by { EvidenceBesideStaging(spec); }
    var stage, theirStage := StagePath(uid, chances.stageNonce), StagePath(other, theirs.stageNonce);
    assert stage[1][..36] == uid && theirStage[1][..36] == other;
    var mine, own := uid + ".json", "." + uid + "." + chances.evidenceNonce + ".tmp";
    var record, temporary := other + ".json", "." + other + "." + theirs.evidenceNonce + ".tmp";
    assert mine[..36] == uid && record[..36] == other && own[1..37] == uid && temporary[1..37] == other;
    assert mine != temporary && own != record by { FirstHex(uid); FirstHex(other); }
    assert mine != record && own != temporary;
    SiblingsApart(e, mine, record);
    SiblingsApart(e, mine, temporary);
    SiblingsApart(e, own, record);
    SiblingsApart(e, own, temporary);
    BesideApart(e, theirStage, mine);
    BesideApart(e, theirStage, own);
    BesideApart(e, stage, record);
    BesideApart(e, stage, temporary);
  }

  lemma UidLength(uid: string)
    requires PodUid(uid)
    ensures |uid| == 36
  {
  }

  lemma FirstHex(uid: string)
    requires PodUid(uid)
    ensures |uid| == 36 && uid[0] != '.'
  {
  }

  lemma EvidenceBesideStaging(spec: RunnerSpec)
    requires Layout(spec)
    ensures Apart(EvidenceDirectory(spec), [STAGING])
  {
  }

  lemma SiblingsApart(dir: Path, a: string, b: string)
    requires a != b
    ensures Apart(dir + [a], dir + [b]) && Inside(dir + [a], dir)
  {
    assert (dir + [a])[|dir|] == a && (dir + [b])[|dir|] == b;
  }

  lemma BesideApart(dir: Path, stage: Path, a: string)
    requires Apart(dir, [STAGING]) && |stage| == 2 && stage[0] == STAGING
    ensures Apart(stage, dir + [a]) && Apart(dir + [a], stage) && Inside(dir + [a], dir) && Inside(stage, [STAGING])
  {
    assert [STAGING] <= stage && dir <= dir + [a];
    if stage <= dir + [a] { PrefixTransitive([STAGING], stage, dir + [a]); PrefixesCompare([STAGING], dir, dir + [a]); }
    if dir + [a] <= stage { PrefixTransitive(dir, dir + [a], stage); PrefixesCompare([STAGING], dir, stage); }
  }

  /** The run respects what is reserved, whenever the runner lets it start at all. */
  ghost predicate Considerate(reserved: set<Path>, spec: RunnerSpec, a: Attempt) {
    ValidSpec(spec) && PodUid(a.meta.uid) ==> Respects(reserved, spec, a.meta.uid, a.chances, a.child)
  }

  lemma Unreserved(spec: RunnerSpec, a: Attempt)
    ensures Considerate({}, spec, a)
  {
    hide ValidSpec, PodUid, EvidenceDirectory, EvidencePath, EvidenceStage, StagePath;
  }

  lemma StrangerConsiderate(spec: RunnerSpec, a: Attempt, uid: string, chances: Chances)
    requires Tame(a.child) && PodUid(uid) && a.meta.uid != uid
    ensures Considerate(NamesOf(spec, uid, chances), spec, a)
  {
    hide Tame, ValidSpec, PodUid, Others, RecordClears;
    if ValidSpec(spec) && PodUid(a.meta.uid) {
      ValidLayout(spec);
      OtherPods(spec, a.meta.uid, a.chances, uid, chances);
    }
  }

  /** Any number of runs with tame children, each failing and stopping anywhere, leave a disk from which the
      next can resume, with the working directory of the kind it was and every reserved name still free. */
  method Attempts(m: Machine, disk: Fs, spec: RunnerSpec, attempts: seq<Attempt>, ghost reserved: set<Path>)
    returns (left: Fs)
    requires Resumable(m, disk, spec) && Free(disk, reserved)
    requires forall a :: a in attempts ==> Physical(a.child) && Tame(a.child) && Considerate(reserved, spec, a)
    ensures Resumable(m, left, spec) && (Seated(left, spec) <==> Seated(disk, spec)) && Free(left, reserved)
  {
    hide Resumable, Seated, Physical, Tame, WellFormed, HonestTrace, Accepted, Concludes, Fresh, Free, Considerate;
    left := disk;
    for i := 0 to |attempts|
      invariant Resumable(m, left, spec) && (Seated(left, spec) <==> Seated(disk, spec)) && Free(left, reserved)
    {
      left := AttemptOnce(m, left, spec, attempts[i], reserved);
    }
  }

  /** One run on the disk as it was left, and the disk as this run leaves it. */
  method AttemptOnce(m: Machine, disk: Fs, spec: RunnerSpec, a: Attempt, ghost reserved: set<Path>) returns (left: Fs)
    requires Resumable(m, disk, spec) && Free(disk, reserved) && Physical(a.child) && Tame(a.child)
    requires Considerate(reserved, spec, a)
    ensures Resumable(m, left, spec) && (Seated(left, spec) <==> Seated(disk, spec)) && Free(left, reserved)
  {
    ResumableFormed(m, disk, spec);
    hide Resumable, Seated, Physical, Tame, WellFormed, HonestTrace, Accepted, Concludes, Fresh, Free, Respects,
         ValidSpec, PodUid, Quiet;
    RetryableElsewhere(m, a, disk, spec);
    var root := new Workspace(MachineFor(m, a), disk, reserved);
    ghost var start := root.history;
    var outcome, launched := ExecuteTask(root, a.workspace, spec, a.argv, a.meta, a.chances, a.child, a.ctx);
    var stop := if a.stop < |root.history| then a.stop else |root.history| - 1;
    left := root.history[stop].fs;
    if stop == 0 {
      assert left == disk;
    } else if launched == None {
      QuietResumable(MachineFor(m, a), disk, left, spec);
    }
    RetryableElsewhere(m, a, left, spec);
  }

  lemma ResumableFormed(m: Machine, fs: Fs, spec: RunnerSpec)
    requires Resumable(m, fs, spec)
    ensures WellFormed(fs)
  {
  }

  /** After any campaign on a disk without the names of its last run, that run, as a new pod, without faults,
      with a correct child and no cancellation, ends in a pass exactly when the child's variables do not
      collide and the working directory is a directory; a pass leaves everything in place. */
  method Retry(m: Machine, disk: Fs, spec: RunnerSpec, attempts: seq<Attempt>, last: Attempt)
    returns (left: Fs, outcome: Outcome, final: Fs)
    requires Resumable(m, disk, spec) && NewNames(disk, spec, last.meta.uid, last.chances)
    requires forall a :: a in attempts ==> Physical(a.child) && Tame(a.child) && a.meta.uid != last.meta.uid
    requires Physical(last.child) && Tame(last.child) && Correct(MachineFor(m, last), last.child, spec)
    requires Healthy(MachineFor(m, last)) && Sane(MachineFor(m, last), last.meta.uid, last.chances)
    requires Accepted(spec, last.argv, last.workspace, last.meta) && last.ctx == Context(false, false, false)
    ensures Resumable(m, left, spec) && (Seated(left, spec) <==> Seated(disk, spec))
    ensures outcome.Finished? && outcome.run.result == PASS <==> NamesApart(spec) && Seated(disk, spec)
    ensures outcome.Finished? && outcome.run.result == PASS ==> Complete(m, final, spec)
    ensures NamesApart(spec) && !Seated(disk, spec) ==>
      outcome.Finished? && outcome.run.result == INFRA_FAIL && outcome.run.exitCode == Some(127)
  {
    hide Resumable, Seated, Physical, Tame, WellFormed, HonestTrace, Fresh, NewNames, Correct, Sane, NamesApart,
         ReadyDisk, Expected, Complete, RecordOf, ReportOf, ChildPassed, InputsMatch, Considerate, Free, NamesOf,
         ValidSpec, PodUid;
    ghost var uid, chances := last.meta.uid, last.chances;
    forall a | a in attempts ensures Considerate(NamesOf(spec, uid, chances), spec, a) {
      StrangerConsiderate(spec, a, uid, chances);
    }
    NewIsFree(disk, spec, uid, chances);
    left := Attempts(m, disk, spec, attempts, NamesOf(spec, uid, chances));
    NewIsFree(left, spec, uid, chances);
    ResumableFormed(m, left, spec);
    RetryableElsewhere(m, last, left, spec);
    FreshAgain(MachineFor(m, last), left, spec, uid, chances);
    outcome, final := LastRun(m, left, spec, last);
  }

  method LastRun(m: Machine, left: Fs, spec: RunnerSpec, last: Attempt) returns (outcome: Outcome, final: Fs)
    requires WellFormed(left) && Physical(last.child) && Tame(last.child)
    requires Correct(MachineFor(m, last), last.child, spec)
    requires Healthy(MachineFor(m, last)) && Sane(MachineFor(m, last), last.meta.uid, last.chances)
    requires Accepted(spec, last.argv, last.workspace, last.meta) && last.ctx == Context(false, false, false)
    requires NamesApart(spec) ==> Fresh(MachineFor(m, last), left, spec, last.meta.uid, last.chances)
    ensures outcome.Finished? && outcome.run.result == PASS <==> NamesApart(spec) && Seated(left, spec)
    ensures outcome.Finished? && outcome.run.result == PASS ==> Complete(m, final, spec)
    ensures NamesApart(spec) && !Seated(left, spec) ==>
      outcome.Finished? && outcome.run.result == INFRA_FAIL && outcome.run.exitCode == Some(127)
  {
    hide Physical, Tame, WellFormed, HonestTrace, Accepted, Fresh, Correct, Sane, NamesApart, ReadyDisk, Expected,
         Complete, RecordOf, ReportOf, ChildPassed, InputsMatch, Respects, Seated;
    NothingReserved(left);
    Unreserved(spec, last);
    var root := new Workspace(MachineFor(m, last), left, {});
    ghost var launched;
    outcome, launched := ExecuteTask(root, last.workspace, spec, last.argv, last.meta, last.chances, last.child,
                                     last.ctx);
    final := root.fs;
    CompleteElsewhere(m, last, final, spec);
    var n, stage := MachineFor(m, last), StagePath(last.meta.uid, last.chances.stageNonce);
    if NamesApart(spec) && Seated(left, spec) {
      CorrectPasses(n, spec, last.child, launched.value, stage, last.ctx);
      PassRecorded(n, spec, last.meta, last.chances);
    } else if NamesApart(spec) {
      UnstartedRecorded(n, spec, last.meta, last.chances);
    }
  }

  lemma FreshAgain(m: Machine, fs: Fs, spec: RunnerSpec, uid: string, chances: Chances)
    requires Resumable(m, fs, spec)
    ensures NewNames(fs, spec, uid, chances) && NamesApart(spec) ==> Fresh(m, fs, spec, uid, chances)
  {
    hide Resumable, NamesApart;
  }

  lemma UnstartedRecorded(m: Machine, spec: RunnerSpec, meta: Metadata, chances: Chances)
    ensures var run := RecordOf(m, spec, meta, chances, StopReport(NotStarted(Context(false, false, false))));
            run.result == INFRA_FAIL && run.exitCode == Some(127)
  {
  }

  /** A valid spec whose names do not collide and which no disk ever seats: its working directory is one of
      its file inputs. */
  lemma NeverSeated() returns (spec: RunnerSpec)
    ensures ValidSpec(spec) && NamesApart(spec)
    ensures forall m: Machine, fs: Fs :: Resumable(m, fs, spec) ==> !Seated(fs, spec)
  {
    spec := SeatIsInput();
    hide ValidSpec, NamesApart;
    forall m: Machine, fs: Fs | Resumable(m, fs, spec) ensures !Seated(fs, spec) {
      assert spec.inputs[0] in spec.inputs;
      assert Matches(m, fs, spec.inputs[0]);
    }
  }

  lemma PassRecorded(m: Machine, spec: RunnerSpec, meta: Metadata, chances: Chances)
    ensures ReportOf(m, spec, Go).Report? && RecordOf(m, spec, meta, chances, ReportOf(m, spec, Go)).result == PASS
  {
  }

  lemma CompleteElsewhere(m: Machine, a: Attempt, fs: Fs, spec: RunnerSpec)
    ensures Complete(m, fs, spec) <==> Complete(MachineFor(m, a), fs, spec)
  {
    var n := MachineFor(m, a);
    assert forall kind, p :: DigestAt(m, fs, kind, p) == DigestAt(n, fs, kind, p);
    assert forall x :: Matches(m, fs, x) <==> Matches(n, fs, x);
  }
}
