/** The evidence record: publishRunEvidence, and what a recorded run promises in every later state. */
module Records {
  import opened Paths
  import opened Contract
  import opened RunnerSpecs
  import opened FileSystem
  import opened Evidence
  import opened Workspaces
  import opened RunStates
  import opened Preparation
  import opened Publication

  predicate RecordedOk(moment: Moment, run: Run, place: Path, bytes: string) {
    moment.recorded == None || (moment.recorded == Some(run) && HoldsBytes(moment.fs, place, bytes))
  }

  /** From `from` on the disk frames `roots`, and whatever is recorded is this run, readable at its place. */
  ghost predicate RecordTrace(base: Fs, history: seq<Moment>, from: nat, roots: set<Path>, linked: bool, run: Run,
                              place: Path, bytes: string) {
    forall k :: from <= k < |history| ==>
      WellFormed(history[k].fs) && Frame(base, history[k].fs, roots, {}) && history[k].linked == linked &&
      RecordedOk(history[k], run, place, bytes)
  }

  /** Where publishing evidence writes: nowhere if its temporary name is taken, and not to its final
      name if that is. */
  function EvidenceRoots(fs: Fs, stage: Path, place: Path): set<Path> {
    if !CanAdd(fs, stage) then {} else if place in fs.names then {stage} else {stage, place}
  }

  /** The names of the record and of its temporary copy are nobody else's. */
  ghost predicate RecordClears(reserved: set<Path>, spec: RunnerSpec, uid: string, nonce: string) {
    OtherNames(reserved, spec) && Clears(reserved, EvidencePath(spec, uid)) &&
    Clears(reserved, EvidenceStage(spec, uid, nonce))
  }

  lemma EvidenceNames(spec: RunnerSpec, uid: string, nonce: string)
    ensures Inside(EvidenceStage(spec, uid, nonce), EvidenceDirectory(spec))
    ensures Inside(EvidencePath(spec, uid), EvidenceDirectory(spec))
    ensures Apart(EvidenceStage(spec, uid, nonce), EvidencePath(spec, uid))
    ensures Parent(EvidencePath(spec, uid)) == EvidenceDirectory(spec) == Parent(EvidenceStage(spec, uid, nonce))
  {
    var n := |EvidenceDirectory(spec)|;
    var a, b := "." + uid + "." + nonce + ".tmp", uid + ".json";
    assert a[|a| - 1] == 'p' && b[|b| - 1] == 'n';
    assert EvidenceStage(spec, uid, nonce)[n] == a && EvidencePath(spec, uid)[n] == b;
  }

  lemma EvidenceHarmless(fs: Fs, spec: RunnerSpec, uid: string, nonce: string)
    ensures Harmless(fs, EvidenceRoots(fs, EvidenceStage(spec, uid, nonce), EvidencePath(spec, uid)), {}, spec)
  {
    EvidenceNames(spec, uid, nonce);
  }

  lemma BytesKept(a: Fs, b: Fs, roots: set<Path>, p: Path)
    requires Frame(a, b, roots, {}) && forall r :: r in roots ==> !(r <= p)
    ensures forall bytes :: HoldsBytes(a, p, bytes) ==> HoldsBytes(b, p, bytes)
    ensures p !in a.names ==> p !in b.names
  {
    assert !Under(p, roots);
  }

  /** A stretch without a new record. */
  lemma RecordStart(base: Fs, now: Fs, history: seq<Moment>, from: nat, roots: set<Path>, more: set<Path>,
                    linked: bool, run: Run, place: Path, bytes: string)
    requires Trace(base, history, from, Flags(linked, None), roots, {}) && Frame(base, now, roots, {}) && roots <= more
    ensures RecordTrace(base, history, from, more, linked, run, place, bytes) && Frame(base, now, more, {})
  {
    hide Frame;
    forall k | from <= k < |history|
      ensures Frame(base, history[k].fs, more, {}) && FlagsOf(history[k]) == Flags(linked, None)
    {
      FrameMore(base, history[k].fs, roots, more);
    }
    FrameMore(base, now, roots, more);
  }

  lemma FrameMore(a: Fs, b: Fs, roots: set<Path>, more: set<Path>)
    requires Frame(a, b, roots, {}) && roots <= more
    ensures Frame(a, b, more, {})
  {
    forall p | Under(p, roots) ensures Under(p, more) { }
  }

  /** One more state of the record. */
  lemma RecordAdd(base: Fs, mid: Fs, before: seq<Moment>, history: seq<Moment>, from: nat, roots: set<Path>,
                  more: set<Path>, linked: bool, run: Run, place: Path, bytes: string)
    requires RecordTrace(base, before, from, roots, linked, run, place, bytes) && Frame(base, mid, roots, {})
    requires more <= roots
    requires before <= history
    requires forall k :: |before| <= k < |history| ==>
      WellFormed(history[k].fs) && Frame(mid, history[k].fs, more, {}) && history[k].linked == linked &&
      RecordedOk(history[k], run, place, bytes)
    ensures RecordTrace(base, history, from, roots, linked, run, place, bytes)
    ensures forall fs :: Frame(mid, fs, more, {}) ==> Frame(base, fs, roots, {})
  {
    hide Frame, RecordedOk;
    forall fs | Frame(mid, fs, more, {}) ensures Frame(base, fs, roots, {}) {
      FrameMore(mid, fs, more, roots);
      FrameTransitive(base, mid, fs, roots, {});
    }
    forall k | from <= k < |history|
      ensures WellFormed(history[k].fs) && Frame(base, history[k].fs, roots, {}) && history[k].linked == linked
      ensures RecordedOk(history[k], run, place, bytes)
    {
      if k < |before| { assert history[k] == before[k]; }
    }
  }

  /** Check the final name, link the temporary file to it, and sync the directory. */
  method LinkRecord(root: Workspace, stage: Path, place: Path, run: Run) returns (ok: bool)
    requires root.Valid() && Clears(root.reserved, place) && root.recorded == None
    requires HoldsBytes(root.fs, stage, RunBytes(root.machine.codec, run))
    modifies root`clock, root`fs, root`history, root`linked, root`recorded
    ensures root.Valid() && old(root.history) <= root.history && root.linked == old(root.linked)
    ensures root.recorded == None ==> root.fs == old(root.fs) && root.history == old(root.history)
    ensures root.recorded.Some? ==>
      root.recorded == Some(run) && place !in old(root.fs.names) && Frame(old(root.fs), root.fs, {place}, {})
    ensures root.recorded.Some? ==> HoldsBytes(root.fs, place, RunBytes(root.machine.codec, run))
    ensures root.recorded.Some? ==> root.history == old(root.history) + [Moment(root.fs, root.linked, root.recorded)]
    ensures ok ==> root.recorded.Some?
    ensures Healthy(root.machine) && !Blocked(old(root.fs), place) && CanAdd(old(root.fs), place) ==> ok
  {
    hide WellFormed, Frame, Blocked;
    var taken;
    ok, taken := root.Exists(place);
    if !ok || taken { return false; }
    ghost var base := root.fs;
    ok := root.LinkMarked(stage, place, Flags(root.linked, Some(run)));
    if !ok { return; }
    AddLinkKeeps(base, stage, place);
    ok := root.Tick();
  }

  /** publishRunEvidence once the directory is there. */
  method WriteRecord(root: Workspace, spec: RunnerSpec, uid: string, nonce: string, run: Run) returns (ok: bool)
    requires root.Valid() && RecordClears(root.reserved, spec, uid, nonce) && root.recorded == None
    modifies root`clock, root`fs, root`history, root`linked, root`recorded
    ensures root.Valid() && old(root.history) <= root.history && root.linked == old(root.linked)
    ensures RecordTrace(old(root.fs), root.history, |old(root.history)|,
      EvidenceRoots(old(root.fs), EvidenceStage(spec, uid, nonce), EvidencePath(spec, uid)), root.linked, run,
      EvidencePath(spec, uid), RunBytes(root.machine.codec, run))
    ensures Frame(old(root.fs), root.fs,
                  EvidenceRoots(old(root.fs), EvidenceStage(spec, uid, nonce), EvidencePath(spec, uid)), {})
    ensures RecordedOk(Moment(root.fs, root.linked, root.recorded), run, EvidencePath(spec, uid),
                       RunBytes(root.machine.codec, run))
    ensures ok ==> root.recorded == Some(run)
    ensures Healthy(root.machine) && IsDir(old(root.fs), EvidenceDirectory(spec)) ==>
      EvidencePath(spec, uid) !in old(root.fs.names) && EvidenceStage(spec, uid, nonce) !in old(root.fs.names) ==> ok
  {
    hide WellFormed, Frame, Trace, RecordTrace, HoldsBytes, CanAdd, Blocked;
    ghost var base, from, linked := root.fs, |root.history|, root.linked;
    var stage, place := EvidenceStage(spec, uid, nonce), EvidencePath(spec, uid);
    var bytes := RunBytes(root.machine.codec, run);
    ghost var roots := EvidenceRoots(base, stage, place);
    EvidenceNames(spec, uid, nonce);
    if IsDir(base, EvidenceDirectory(spec)) {
      Reachable(base, EvidenceDirectory(spec), uid + ".json");
      Reachable(base, EvidenceDirectory(spec), "." + uid + "." + nonce + ".tmp");
    }
    NothingWritten(base, root.history, roots, linked, run, place, bytes);
    ok := root.WriteSealed(stage, bytes);
    if CanAdd(base, stage) {
      RecordStart(base, root.fs, root.history, from, {stage}, roots, linked, run, place, bytes);
    }
    if !ok { return; }

    ghost var mid, before := root.fs, root.history;
    PlaceRoom(base, mid, stage, place);
    ok := LinkRecord(root, stage, place, run);
    ghost var linkedFs, after := root.fs, root.history;
    FrameReflexive(mid, {place}, {});
    LinkStretch(base, mid, linkedFs, before, after, from, stage, roots, linked, run, place, bytes, root.recorded);
    var removed := root.Remove(stage);
    RemoveStretch(base, linkedFs, root.fs, after, root.history, from, stage, roots, linked, run, place, bytes,
                  root.recorded);
  }

  lemma NothingWritten(base: Fs, history: seq<Moment>, roots: set<Path>, linked: bool, run: Run, place: Path,
                       bytes: string)
    ensures RecordTrace(base, history, |history|, roots, linked, run, place, bytes) && Frame(base, base, roots, {})
  {
  }

  lemma PlaceRoom(a: Fs, b: Fs, stage: Path, place: Path)
    requires Frame(a, b, {stage}, {}) && Apart(stage, place) && place != [] && Parent(place) == Parent(stage)
    requires CanAdd(a, stage)
    requires WellFormed(b)
    ensures place !in a.names ==> CanAdd(b, place) && !Blocked(b, place)
    ensures place in a.names ==> place in b.names
  {
    assert !Under(place, {stage}) && !Under(Parent(place), {stage});
    if place !in a.names {
      AncestorsPresent(b, Parent(place));
      forall i | 0 <= i < |place| ensures !IsFile(b, place[..i]) {
        if i < |place| - 1 { assert place[..i] == Parent(place)[..i]; } else { assert place[..i] == Parent(place); }
      }
    }
  }

  lemma LinkStretch(base: Fs, mid: Fs, now: Fs, before: seq<Moment>, history: seq<Moment>, from: nat, stage: Path,
                    roots: set<Path>, linked: bool, run: Run, place: Path, bytes: string, recorded: Option<Run>)
    requires RecordTrace(base, before, from, roots, linked, run, place, bytes) && Frame(base, mid, roots, {})
    requires WellFormed(now)
    requires place in base.names ==> place in mid.names
    requires place !in base.names ==> place in roots
    requires recorded == None ==> now == mid && history == before
    requires recorded.Some? ==>
      recorded == Some(run) && place !in mid.names && Frame(mid, now, {place}, {}) && HoldsBytes(now, place, bytes)
    requires recorded.Some? ==> history == before + [Moment(now, linked, recorded)]
    ensures RecordTrace(base, history, from, roots, linked, run, place, bytes) && Frame(base, now, roots, {})
    ensures RecordedOk(Moment(now, linked, recorded), run, place, bytes)
  {
    hide Frame, HoldsBytes, WellFormed;
    if recorded.Some? { RecordAdd(base, mid, before, history, from, roots, {place}, linked, run, place, bytes); }
  }

  lemma RemoveStretch(base: Fs, mid: Fs, now: Fs, before: seq<Moment>, history: seq<Moment>, from: nat, stage: Path,
                      roots: set<Path>, linked: bool, run: Run, place: Path, bytes: string, recorded: Option<Run>)
    requires RecordTrace(base, before, from, roots, linked, run, place, bytes) && Frame(base, mid, roots, {})
    requires stage in roots
    requires RecordedOk(Moment(mid, linked, recorded), run, place, bytes) && Apart(stage, place)
    requires before <= history && Trace(mid, history, |before|, Flags(linked, recorded), {stage}, {})
    requires Frame(mid, now, {stage}, {})
    ensures RecordTrace(base, history, from, roots, linked, run, place, bytes) && Frame(base, now, roots, {})
    ensures RecordedOk(Moment(now, linked, recorded), run, place, bytes)
  {
    hide Frame, HoldsBytes, WellFormed;
    BytesKept(mid, now, {stage}, place);
    forall k | |before| <= k < |history|
      ensures RecordedOk(history[k], run, place, bytes) && FlagsOf(history[k]) == Flags(linked, recorded)
    {
      BytesKept(mid, history[k].fs, {stage}, place);
    }
    RecordAdd(base, mid, before, history, from, roots, {stage}, linked, run, place, bytes);
  }

  // ----- what every state of a run promises -----

  /** A recorded run is valid and readable at its place; a recorded pass comes only when `sure`, and
      then outputs, manifest and inputs all hold what the spec declares. */
  ghost predicate Attested(m: Machine, moment: Moment, spec: RunnerSpec, uid: string, sure: bool) {
    moment.recorded.Some? ==>
      var run := moment.recorded.value;
      ValidRun(m.codec, run) && HoldsBytes(moment.fs, EvidencePath(spec, uid), RunBytes(m.codec, run)) &&
      (run.result == PASS ==>
        sure && Complete(m, moment.fs, spec) && run.outputCommit == Some(CommitOf(m.codec, PortableOutputs(spec))))
  }

  ghost predicate Honest(m: Machine, moment: Moment, spec: RunnerSpec, uid: string, sure: bool) {
    WellFormed(moment.fs) && CommitHolds(m, moment, spec) && Attested(m, moment, spec, uid, sure)
  }

  ghost predicate HonestTrace(m: Machine, history: seq<Moment>, from: nat, spec: RunnerSpec, uid: string, sure: bool) {
    forall k :: from <= k < |history| ==> Honest(m, history[k], spec, uid, sure)
  }

  /** States quiet against `base`, whatever their flags. */
  ghost predicate CalmTrace(base: Fs, history: seq<Moment>, from: nat, spec: RunnerSpec) {
    forall k :: from <= k < |history| ==> WellFormed(history[k].fs) && Quiet(base, history[k].fs, spec)
  }

  lemma CalmJoin(base: Fs, mid: Fs, before: seq<Moment>, history: seq<Moment>, from: nat, spec: RunnerSpec)
    requires before <= history && CalmTrace(base, before, from, spec) && Quiet(base, mid, spec)
    requires CalmTrace(mid, history, |before|, spec)
    ensures CalmTrace(base, history, from, spec)
    ensures forall fs :: Quiet(mid, fs, spec) ==> Quiet(base, fs, spec)
  {
    hide Quiet;
    forall fs | Quiet(mid, fs, spec) ensures Quiet(base, fs, spec) { QuietTransitive(base, mid, fs, spec); }
    forall k | from <= k < |history| ensures WellFormed(history[k].fs) && Quiet(base, history[k].fs, spec) {
      if k < |before| { assert history[k] == before[k]; }
    }
  }

  lemma HonestJoin(m: Machine, before: seq<Moment>, history: seq<Moment>, from: nat, spec: RunnerSpec, uid: string,
                   sure: bool)
    requires before <= history && HonestTrace(m, before, from, spec, uid, sure)
    requires HonestTrace(m, history, |before|, spec, uid, sure)
    ensures HonestTrace(m, history, from, spec, uid, sure)
  {
    hide Honest;
    forall k | from <= k < |history| ensures Honest(m, history[k], spec, uid, sure) {
      if k < |before| { assert history[k] == before[k]; }
    }
  }

  lemma CommitHonest(m: Machine, history: seq<Moment>, from: nat, spec: RunnerSpec, uid: string, sure: bool)
    requires CommitTrace(m, history, from, spec)
    ensures HonestTrace(m, history, from, spec, uid, sure)
  {
    hide WellFormed, CommitHolds;
  }

  lemma CalmRetryable(m: Machine, base: Fs, history: seq<Moment>, from: nat, spec: RunnerSpec)
    requires CalmTrace(base, history, from, spec) && Retryable(m, base, spec)
    ensures RetryTrace(m, history, from, spec)
  {
    hide Quiet, Retryable;
    forall k | from <= k < |history| ensures Retryable(m, history[k].fs, spec) {
      QuietRetryable(m, base, history[k].fs, spec);
    }
  }

  lemma CalmOfQuiet(base: Fs, history: seq<Moment>, from: nat, flags: Flags, spec: RunnerSpec)
    requires QuietTrace(base, history, from, flags, spec)
    ensures CalmTrace(base, history, from, spec)
  {
  }

  lemma CalmOfRecord(base: Fs, now: Fs, history: seq<Moment>, from: nat, roots: set<Path>, linked: bool, run: Run,
                     place: Path, bytes: string, spec: RunnerSpec)
    requires RecordTrace(base, history, from, roots, linked, run, place, bytes) && Frame(base, now, roots, {})
    requires WellFormed(base) && Layout(spec) && Harmless(base, roots, {}, spec)
    ensures CalmTrace(base, history, from, spec) && Quiet(base, now, spec)
  {
    hide Frame, Quiet, Harmless, Layout, RecordedOk;
    HarmlessQuiet(base, now, roots, {}, spec);
    forall k | from <= k < |history| ensures Quiet(base, history[k].fs, spec) {
      HarmlessQuiet(base, history[k].fs, roots, {}, spec);
    }
  }

  /** The record the run means to publish. */
  ghost predicate Publishable(m: Machine, fs: Fs, linked: bool, spec: RunnerSpec, run: Run, sure: bool) {
    WellFormed(fs) && ValidRun(m.codec, run) && CommitHolds(m, Moment(fs, linked, None), spec) &&
    (run.result == PASS ==>
      sure && Complete(m, fs, spec) && run.outputCommit == Some(CommitOf(m.codec, PortableOutputs(spec))))
  }

  lemma StillPublishable(m: Machine, a: Fs, b: Fs, linked: bool, spec: RunnerSpec, run: Run, sure: bool)
    requires Publishable(m, a, linked, spec, run, sure) && WellFormed(b) && Quiet(a, b, spec)
    ensures Publishable(m, b, linked, spec, run, sure)
  {
    hide WellFormed, Quiet, ValidRun, OutputsMatch, InputsMatch, ManifestExact;
    QuietComplete(m, a, b, spec);
  }

  lemma RecordHonest(m: Machine, base: Fs, moment: Moment, spec: RunnerSpec, uid: string, run: Run, sure: bool)
    requires Publishable(m, base, moment.linked, spec, run, sure) && WellFormed(moment.fs)
    requires Quiet(base, moment.fs, spec)
    requires RecordedOk(moment, run, EvidencePath(spec, uid), RunBytes(m.codec, run))
    ensures Honest(m, moment, spec, uid, sure)
  {
    hide WellFormed, Quiet, ValidRun, OutputsMatch, InputsMatch, ManifestExact, HoldsBytes;
    StillPublishable(m, base, moment.fs, moment.linked, spec, run, sure);
  }

  lemma RecordsHonest(m: Machine, base: Fs, history: seq<Moment>, from: nat, linked: bool, spec: RunnerSpec,
                      uid: string, run: Run, sure: bool, roots: set<Path>)
    requires Publishable(m, base, linked, spec, run, sure) && CalmTrace(base, history, from, spec)
    requires RecordTrace(base, history, from, roots, linked, run, EvidencePath(spec, uid), RunBytes(m.codec, run))
    ensures HonestTrace(m, history, from, spec, uid, sure)
  {
    hide WellFormed, Quiet, Publishable, Honest, RecordedOk, Frame;
    forall k | from <= k < |history| ensures Honest(m, history[k], spec, uid, sure) {
      RecordHonest(m, base, history[k], spec, uid, run, sure);
    }
  }

  lemma QuietHonest(m: Machine, base: Fs, history: seq<Moment>, from: nat, linked: bool, spec: RunnerSpec, uid: string,
                    run: Run, sure: bool)
    requires Publishable(m, base, linked, spec, run, sure) && QuietTrace(base, history, from, Flags(linked, None), spec)
    ensures HonestTrace(m, history, from, spec, uid, sure)
  {
    hide WellFormed, Quiet, Publishable, Honest;
    forall k | from <= k < |history| ensures Honest(m, history[k], spec, uid, sure) {
      assert FlagsOf(history[k]) == Flags(linked, None);
      RecordHonest(m, base, history[k], spec, uid, run, sure);
    }
  }

  /** publishRunEvidence on a valid record. */
  method PublishEvidence(root: Workspace, spec: RunnerSpec, uid: string, nonce: string, run: Run, ghost sure: bool)
    returns (ok: bool)
    requires root.Valid() && RecordClears(root.reserved, spec, uid, nonce) && Layout(spec) && root.recorded == None
    requires Publishable(root.machine, root.fs, root.linked, spec, run, sure)
    modifies root`clock, root`fs, root`history, root`linked, root`recorded
    ensures root.Valid() && old(root.history) <= root.history && root.linked == old(root.linked)
    ensures HonestTrace(root.machine, root.history, |old(root.history)|, spec, uid, sure)
    ensures Honest(root.machine, Moment(root.fs, root.linked, root.recorded), spec, uid, sure)
    ensures CalmTrace(old(root.fs), root.history, |old(root.history)|, spec) && Quiet(old(root.fs), root.fs, spec)
    ensures ok ==> root.recorded == Some(run)
    ensures Healthy(root.machine) && !Blocked(old(root.fs), EvidenceDirectory(spec)) &&
            !IsFile(old(root.fs), EvidenceDirectory(spec)) ==>
      EvidencePath(spec, uid) !in old(root.fs.names) && EvidenceStage(spec, uid, nonce) !in old(root.fs.names) ==> ok
  {
    hide WellFormed, Frame, Trace, Quiet, QuietTrace, Layout, Blocked, CalmTrace, HonestTrace, RecordTrace, RecordedOk,
         Publishable, Honest, EvidenceRoots, EvidenceKept, Same, HoldsBytes, Harmless;
    ghost var base, from, m, linked := root.fs, |root.history|, root.machine, root.linked;
    var directory := EnsureEvidenceDirectory(root, spec);
    ghost var mid, before := root.fs, root.history;
    CalmOfQuiet(base, before, from, Flags(linked, None), spec);
    QuietHonest(m, base, before, from, linked, spec, uid, run, sure);
    StillPublishable(m, base, mid, linked, spec, run, sure);
    if !directory {
      NoRecord(mid, linked, run, EvidencePath(spec, uid), RunBytes(m.codec, run));
      QuietReflexive(mid, spec);
      RecordHonest(m, mid, Moment(mid, linked, None), spec, uid, run, sure);
      return false;
    }
    EvidenceNames(spec, uid, nonce);
    StillFresh(base, mid, spec, EvidencePath(spec, uid));
    StillFresh(base, mid, spec, EvidenceStage(spec, uid, nonce));
    ghost var roots := EvidenceRoots(mid, EvidenceStage(spec, uid, nonce), EvidencePath(spec, uid));
    EvidenceHarmless(mid, spec, uid, nonce);
    ok := WriteRecord(root, spec, uid, nonce, run);
    CalmOfRecord(mid, root.fs, root.history, |before|, roots, linked, run, EvidencePath(spec, uid),
                 RunBytes(m.codec, run), spec);
    RecordsHonest(m, mid, root.history, |before|, linked, spec, uid, run, sure, roots);
    RecordHonest(m, mid, Moment(root.fs, linked, root.recorded), spec, uid, run, sure);
    CalmJoin(base, mid, before, root.history, from, spec);
    HonestJoin(m, before, root.history, from, spec, uid, sure);
  }

  lemma NoRecord(fs: Fs, linked: bool, run: Run, place: Path, bytes: string)
    ensures RecordedOk(Moment(fs, linked, None), run, place, bytes)
  {
  }

  lemma StillFresh(a: Fs, b: Fs, spec: RunnerSpec, p: Path)
    requires EvidenceKept(a, b, spec) && Inside(p, EvidenceDirectory(spec))
    ensures p !in a.names ==> p !in b.names
  {
  }
}
