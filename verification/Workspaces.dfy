/** The opened workspace: the disk, the system calls the runner makes on it, and the history of every
    state the disk has been in. A run that stops between two steps leaves one of those states. */
module Workspaces {
  import opened Paths
  import opened Contract
  import opened FileSystem
  import opened Evidence

  /** What the runner's surroundings decide: digests and encoders, which system calls fail, how much
      of a write reaches the disk before the rest, which tree entry names are acceptable, and the trace
      id of a pod. */
  datatype Machine = Machine(
    codec: Codec, tree: map<Path, string> -> string, entry: Path -> bool,
    faults: nat -> bool, cut: nat -> nat, trace: string -> string)

  ghost predicate Healthy(m: Machine) { forall n :: !m.faults(n) }

  /** One state of the disk; whether this run's commit manifest is linked; the evidence it published. */
  datatype Moment = Moment(fs: Fs, linked: bool, recorded: Option<Run>)

  predicate GoodEntries(m: Machine, fs: Fs, p: Path) {
    forall q :: q in fs.names && p <= q && q != p ==> m.entry(q[|p|..])
  }

  /** The digest of the artifact at p, as hashRootArtifact computes it; None is an error. */
  function DigestAt(m: Machine, fs: Fs, kind: string, p: Path): Option<string> {
    if kind == FILE && IsFile(fs, p) && fs.names[p].ino in fs.data then Some(m.codec.sha256(Bytes(fs, p)))
    else if kind == TREE && IsDir(fs, p) && GoodEntries(m, fs, p) then Some(m.tree(TreeOf(fs, p)))
    else None
  }

  lemma MirrorEntries(m: Machine, a: Fs, p: Path, b: Fs, q: Path)
    requires Mirror(a, p, b, q) && GoodEntries(m, a, p)
    ensures GoodEntries(m, b, q)
  {
    forall y | y in b.names && q <= y && y != q ensures m.entry(y[|q|..]) {
      var r := y[|q|..];
      assert q + r == y && (p + r)[|p|..] == r && p <= p + r;
      assert p + r in a.names <==> q + r in b.names;
    }
  }

  lemma MirrorBack(a: Fs, p: Path, b: Fs, q: Path)
    requires Mirror(a, p, b, q)
    ensures Mirror(b, q, a, p)
  {
    forall r: Path
      ensures (q + r in b.names <==> p + r in a.names) && (q + r in b.names ==> SameNode(b, q + r, a, p + r))
    {
      assert p + r in a.names <==> q + r in b.names;
    }
  }

  lemma MirrorDigest(m: Machine, kind: string, a: Fs, p: Path, b: Fs, q: Path)
    requires Mirror(a, p, b, q) && WellFormed(a) && WellFormed(b)
    ensures DigestAt(m, a, kind, p) == DigestAt(m, b, kind, q)
  {
    hide GoodEntries, TreeOf, WellFormed;
    assert p + [] == p && q + [] == q;
    assert p + [] in a.names <==> q + [] in b.names;
    MirrorTree(a, p, b, q);
    MirrorBack(a, p, b, q);
    if GoodEntries(m, a, p) { MirrorEntries(m, a, p, b, q); }
    if GoodEntries(m, b, q) { MirrorEntries(m, b, q, a, p); }
  }

  lemma SameDigest(m: Machine, kind: string, a: Fs, b: Fs, y: Path)
    requires Same(a, b, y) && WellFormed(a) && WellFormed(b)
    ensures DigestAt(m, a, kind, y) == DigestAt(m, b, kind, y)
  {
    SameMirrors(a, b, y);
    MirrorDigest(m, kind, a, y, b, y);
  }

  datatype Flags = Flags(linked: bool, recorded: Option<Run>)

  /** From position `from` on, every state is well formed, frames `roots` and `dirs` against `base`,
      and carries the given flags. */
  ghost predicate Trace(base: Fs, history: seq<Moment>, from: nat, flags: Flags, roots: set<Path>, dirs: set<Path>) {
    forall k :: from <= k < |history| ==>
      WellFormed(history[k].fs) && Frame(base, history[k].fs, roots, dirs) && FlagsOf(history[k]) == flags
  }

  function FlagsOf(m: Moment): Flags { Flags(m.linked, m.recorded) }

  lemma TraceStart(fs: Fs, history: seq<Moment>, flags: Flags, roots: set<Path>, dirs: set<Path>)
    ensures Trace(fs, history, |history|, flags, roots, dirs) && Frame(fs, fs, roots, dirs)
  {
  }

  lemma TraceAdd(base: Fs, history: seq<Moment>, from: nat, m: Moment, roots: set<Path>, dirs: set<Path>)
    requires Trace(base, history, from, FlagsOf(m), roots, dirs)
    requires WellFormed(m.fs) && Frame(base, m.fs, roots, dirs)
    ensures Trace(base, history + [m], from, FlagsOf(m), roots, dirs)
  {
  }

  /** Two stretches of one history make one, when the second frames no more than the first. */
  lemma TraceThen(base: Fs, mid: Fs, before: seq<Moment>, history: seq<Moment>, from: nat, flags: Flags,
                  roots: set<Path>, dirs: set<Path>)
    requires before <= history && Trace(base, before, from, flags, roots, dirs) && Frame(base, mid, roots, dirs)
    requires Trace(mid, history, |before|, flags, roots, dirs)
    ensures Trace(base, history, from, flags, roots, dirs)
    ensures forall fs :: Frame(mid, fs, roots, dirs) ==> Frame(base, fs, roots, dirs)
  {
    forall fs | Frame(mid, fs, roots, dirs) ensures Frame(base, fs, roots, dirs) {
      FrameTransitive(base, mid, fs, roots, dirs);
    }
    forall k | from <= k < |history|
      ensures WellFormed(history[k].fs) && Frame(base, history[k].fs, roots, dirs) && FlagsOf(history[k]) == flags
    {
      if k < |before| { assert history[k] == before[k]; }
    }
  }

  // ----- names kept for others -----

  ghost predicate Free(fs: Fs, reserved: set<Path>) { forall r :: r in reserved ==> r !in fs.names }

  /** No reserved name was taken in any state. */
  ghost predicate Untaken(history: seq<Moment>, reserved: set<Path>) {
    forall k :: 0 <= k < |history| ==> Free(history[k].fs, reserved)
  }

  /** Nothing reserved lies at, below or above p. */
  ghost predicate Clears(reserved: set<Path>, p: Path) { forall r :: r in reserved ==> Apart(p, r) }

  /** Nothing reserved lies on the way to p. */
  ghost predicate Passes(reserved: set<Path>, p: Path) { forall r :: r in reserved ==> !(r <= p) }

  lemma FrameFree(a: Fs, b: Fs, roots: set<Path>, dirs: set<Path>, reserved: set<Path>)
    requires Frame(a, b, roots, dirs) && Free(a, reserved)
    requires (forall p :: p in roots ==> Clears(reserved, p)) && forall d :: d in dirs ==> Passes(reserved, d)
    ensures Free(b, reserved)
  {
    forall r | r in reserved ensures r !in b.names {
      forall p | p in roots ensures !(p <= r) { assert Clears(reserved, p); }
      forall d | d in dirs ensures !(r <= d) { assert Passes(reserved, d); }
      assert !Under(r, roots) && !Leads(r, dirs);
    }
  }

  lemma UntakenAdd(history: seq<Moment>, m: Moment, reserved: set<Path>)
    requires Untaken(history, reserved) && Free(m.fs, reserved)
    ensures Untaken(history + [m], reserved)
  {
    hide Free;
  }

  lemma ClearsBelow(reserved: set<Path>, p: Path, q: Path)
    requires Clears(reserved, p) && p <= q
    ensures Clears(reserved, q) && Passes(reserved, q)
  {
    forall r | r in reserved ensures Apart(q, r) {
      assert Apart(p, r);
      if r <= q { PrefixesCompare(p, r, q); }
    }
  }

  lemma NowFree(history: seq<Moment>, fs: Fs, reserved: set<Path>)
    requires Untaken(history, reserved) && |history| > 0 && history[|history| - 1].fs == fs
    ensures Free(fs, reserved)
  {
  }

  class Workspace {
    const machine: Machine
    /** Names other runs will use; this run's steps leave them free. */
    ghost const reserved: set<Path>
    var fs: Fs
    var clock: nat
    var linked: bool
    var recorded: Option<Run>
    var history: seq<Moment>

    constructor (machine: Machine, fs: Fs, ghost reserved: set<Path>)
      requires WellFormed(fs) && Free(fs, reserved)
      ensures Valid() && this.machine == machine && this.reserved == reserved && this.fs == fs
      ensures history == [Moment(fs, false, None)]
      ensures !linked && recorded == None
    {
      this.machine, this.fs, clock := machine, fs, 0;
      this.reserved := reserved;
      linked, recorded, history := false, None, [Moment(fs, false, None)];
    }

    ghost predicate Valid()
      reads this
    {
      WellFormed(fs) && |history| > 0 && history[|history| - 1] == Moment(fs, linked, recorded) &&
      Untaken(history, reserved)
    }

    /** The disk moved through well-formed states that frame `roots` and `dirs`. */
    twostate predicate Stepped(roots: set<Path>, dirs: set<Path>)
      reads this
    {
      Valid() && old(history) <= history && linked == old(linked) && recorded == old(recorded) &&
      Frame(old(fs), fs, roots, dirs) && Trace(old(fs), history, |old(history)|, Flags(linked, recorded), roots, dirs)
    }

    method Tick() returns (ok: bool)
      modifies this`clock
      ensures ok <==> !machine.faults(old(clock))
    {
      ok := !machine.faults(clock);
      clock := clock + 1;
    }

    /** Every change of the disk goes through here, so the history misses no state. */
    method Install(next: Fs)
      requires Valid() && WellFormed(next) && Free(next, reserved)
      modifies this`fs, this`history
      ensures Valid() && fs == next && history == old(history) + [Moment(next, linked, recorded)]
    {
      hide Free, Untaken, WellFormed;
      UntakenAdd(history, Moment(next, linked, recorded), reserved);
      fs := next;
      history := history + [Moment(next, linked, recorded)];
    }

    // ----- reads -----

    /** ensureNoSymlinkPath on a disk without symlinks. */
    method CheckPath(p: Path, allowMissing: bool) returns (ok: bool)
      requires WellFormed(fs)
      modifies this`clock
      ensures ok ==> !Blocked(fs, p) && (allowMissing || p in fs.names)
      ensures Healthy(machine) && !Blocked(fs, p) && (allowMissing || p in fs.names) ==> ok
    {
      for i := 1 to |p| + 1
        invariant p[..i - 1] in fs.names && (i <= |p| ==> IsDir(fs, p[..i - 1]))
      {
        ok := Tick();
        if !ok { return; }
        if p[..i] !in fs.names {
          MissingUnblocked(fs, i, p);
          return allowMissing;
        }
        if i < |p| && !IsDir(fs, p[..i]) {
          assert IsFile(fs, p[..i]);
          return false;
        }
      }
      assert p[..|p|] == p;
      AncestorsPresent(fs, p);
      return true;
    }

    /** rootPathExists: an ancestor that is a file is an error, not an absence. */
    method Exists(p: Path) returns (ok: bool, exists_: bool)
      modifies this`clock
      ensures ok ==> !Blocked(fs, p) && (exists_ <==> p in fs.names)
      ensures Healthy(machine) && !Blocked(fs, p) ==> ok
    {
      ok := Tick();
      ok, exists_ := ok && !Blocked(fs, p), p in fs.names;
    }

    /** hashRootArtifact. */
    method Hash(kind: string, p: Path) returns (digest: Option<string>)
      modifies this`clock
      ensures digest.Some? ==> digest == DigestAt(machine, fs, kind, p)
      ensures Healthy(machine) ==> digest == DigestAt(machine, fs, kind, p)
    {
      var ok := Tick();
      digest := if ok then DigestAt(machine, fs, kind, p) else None;
    }

    // ----- writes -----

    /** One level of MkdirAll. */
    method MkdirLevel(q: Path, target: Path) returns (ok: bool)
      requires Valid() && Passes(reserved, target) && q != [] && q <= target && IsDir(fs, Parent(q))
      modifies this`clock, this`fs, this`history
      ensures Stepped({}, {target})
      ensures ok ==> IsDir(fs, q)
      ensures Healthy(machine) && !IsFile(old(fs), q) ==> ok
    {
      hide WellFormed, Frame, Trace, Free, Untaken, Passes, Clears;
      TraceStart(fs, history, Flags(linked, recorded), {}, {target});
      if q in fs.names { return IsDir(fs, q); }
      ok := Tick();
      if ok {
        AddDirKeeps(fs, q, target);
        NowFree(history, fs, reserved);
        FrameFree(fs, AddDir(fs, q), {}, {target}, reserved);
        TraceAdd(fs, history, |history|, Moment(AddDir(fs, q), linked, recorded), {}, {target});
        Install(AddDir(fs, q));
      }
    }

    /** MkdirAll. */
    method MkdirAll(p: Path) returns (ok: bool)
      requires Valid() && Passes(reserved, p)
      modifies this`clock, this`fs, this`history
      ensures Stepped({}, {p})
      ensures ok ==> IsDir(fs, p)
      ensures Healthy(machine) && !Blocked(old(fs), p) && !IsFile(old(fs), p) ==> ok
    {
      assert p[..0] == [] && IsDir(fs, []);
      hide WellFormed, Frame, Trace, Free, Untaken, Passes, Clears;
      TraceStart(fs, history, Flags(linked, recorded), {}, {p});
      for i := 1 to |p| + 1
        invariant Stepped({}, {p})
        invariant IsDir(fs, p[..i - 1])
      {
        ghost var mid, before := fs, history;
        assert Parent(p[..i]) == p[..i - 1];
        ok := MkdirLevel(p[..i], p);
        TraceThen(old(fs), mid, before, history, |old(history)|, Flags(linked, recorded), {}, {p});
        if !ok {
          if IsFile(mid, p[..i]) {
            FramedFile(old(fs), mid, {p}, p[..i]);
            assert i == |p| ==> p[..i] == p;
          }
          return;
        }
      }
      assert p[..|p|] == p;
      return true;
    }

    /** A system call that either fails without effect or moves the disk to `next` in one step. */
    method Attempt(allowed: bool, next: Fs, ghost roots: set<Path>) returns (ok: bool)
      requires Valid() && (allowed ==> WellFormed(next) && Frame(fs, next, roots, {}))
      requires forall r :: r in roots ==> Clears(reserved, r)
      modifies this`clock, this`fs, this`history
      ensures Stepped(roots, {})
      ensures ok ==> allowed && fs == next
      ensures !ok ==> fs == old(fs)
      ensures Healthy(machine) && allowed ==> ok
      ensures history == if ok then old(history) + [Moment(fs, linked, recorded)] else old(history)
    {
      hide WellFormed, Frame, Trace, Free, Untaken, Passes, Clears;
      ok := Tick();
      ok := ok && allowed;
      TraceStart(fs, history, Flags(linked, recorded), roots, {});
      if ok {
        TraceAdd(fs, history, |history|, Moment(next, linked, recorded), roots, {});
        NowFree(history, fs, reserved);
        FrameFree(fs, next, roots, {}, reserved);
        Install(next);
      }
    }

    /** Mkdir: fails if the name is taken. */
    method Mkdir(p: Path) returns (ok: bool)
      requires Valid() && Clears(reserved, p)
      modifies this`clock, this`fs, this`history
      ensures Stepped({p}, {})
      ensures ok ==> CanAdd(old(fs), p) && fs == AddDir(old(fs), p)
      ensures !ok ==> fs == old(fs)
      ensures Healthy(machine) && CanAdd(old(fs), p) ==> ok
      ensures history == if ok then old(history) + [Moment(fs, linked, recorded)] else old(history)
    {
      hide WellFormed, Frame, Trace, Free, Untaken, Passes, Clears;
      if CanAdd(fs, p) { AddDirKeeps(fs, p, p); }
      ok := Attempt(CanAdd(fs, p), AddDir(fs, p), {p});
    }

    /** Link: a second name for a file's inode. */
    method Link(source: Path, target: Path) returns (ok: bool)
      requires Valid() && Clears(reserved, target)
      modifies this`clock, this`fs, this`history
      ensures Stepped({target}, {})
      ensures ok ==> IsFile(old(fs), source) && CanAdd(old(fs), target) && fs == AddLink(old(fs), source, target)
      ensures !ok ==> fs == old(fs)
      ensures Healthy(machine) && IsFile(old(fs), source) && CanAdd(old(fs), target) ==> ok
      ensures history == if ok then old(history) + [Moment(fs, linked, recorded)] else old(history)
    {
      hide WellFormed, Frame, Trace, Free, Untaken, Passes, Clears;
      var allowed := IsFile(fs, source) && CanAdd(fs, target);
      if allowed { AddLinkKeeps(fs, source, target); }
      ok := Attempt(allowed, if allowed then AddLink(fs, source, target) else fs, {target});
    }

    /** Link that marks a milestone of the run: the new state carries new flags. */
    method LinkMarked(source: Path, target: Path, flags: Flags) returns (ok: bool)
      requires Valid() && Clears(reserved, target)
      modifies this`clock, this`fs, this`history, this`linked, this`recorded
      ensures Valid()
      ensures ok ==> IsFile(old(fs), source) && CanAdd(old(fs), target) && fs == AddLink(old(fs), source, target)
      ensures ok ==> linked == flags.linked && recorded == flags.recorded
      ensures ok ==> history == old(history) + [Moment(fs, linked, recorded)]
      ensures !ok ==> fs == old(fs) && history == old(history) && linked == old(linked) && recorded == old(recorded)
      ensures Healthy(machine) && IsFile(old(fs), source) && CanAdd(old(fs), target) ==> ok
    {
      hide WellFormed, Frame, Trace, Free, Untaken, Passes, Clears;
      ok := Tick();
      ok := ok && IsFile(fs, source) && CanAdd(fs, target);
      if ok {
        AddLinkKeeps(fs, source, target);
        NowFree(history, fs, reserved);
        FrameFree(fs, AddLink(fs, source, target), {target}, {}, reserved);
        UntakenAdd(history, Moment(AddLink(fs, source, target), flags.linked, flags.recorded), reserved);
        linked, recorded := flags.linked, flags.recorded;
        fs := AddLink(fs, source, target);
        history := history + [Moment(fs, linked, recorded)];
      }
    }

    /** Rename of a directory onto a free name. */
    method Rename(source: Path, target: Path) returns (ok: bool)
      requires Valid() && Apart(source, target) && source != [] && Clears(reserved, source) && Clears(reserved, target)
      modifies this`clock, this`fs, this`history
      ensures Stepped({source, target}, {})
      ensures ok ==> IsDir(old(fs), source) && CanAdd(old(fs), target) && fs == MoveTree(old(fs), source, target)
      ensures !ok ==> fs == old(fs)
      ensures Healthy(machine) && IsDir(old(fs), source) && CanAdd(old(fs), target) ==> ok
      ensures history == if ok then old(history) + [Moment(fs, linked, recorded)] else old(history)
    {
      hide WellFormed, Frame, Trace, Free, Untaken, Passes, Clears;
      var allowed := IsDir(fs, source) && CanAdd(fs, target);
      if allowed { MoveTreeKeeps(fs, source, target); }
      ok := Attempt(allowed, MoveTree(fs, source, target), {source, target});
    }

    /** Remove: a file or an empty directory. */
    method Remove(p: Path) returns (ok: bool)
      requires Valid() && p != [] && Clears(reserved, p)
      modifies this`clock, this`fs, this`history
      ensures Stepped({p}, {})
      ensures ok ==> fs == Drop(old(fs), p)
      ensures !ok ==> fs == old(fs)
      ensures history == if ok then old(history) + [Moment(fs, linked, recorded)] else old(history)
    {
      hide WellFormed, Frame, Trace, Free, Untaken, Passes, Clears;
      var allowed := p in fs.names && IsLeaf(fs, p);
      if allowed { DropKeeps(fs, p); }
      ok := Attempt(allowed, Drop(fs, p), {p});
    }

    /** Create a new file and write it. The write may stop short, and may be seen half done. */
    method WriteSealed(p: Path, bytes: string) returns (ok: bool)
      requires Valid() && Clears(reserved, p)
      modifies this`clock, this`fs, this`history
      ensures Stepped({p}, {})
      ensures ok ==> CanAdd(old(fs), p) && HoldsBytes(fs, p, bytes)
      ensures !CanAdd(old(fs), p) ==> fs == old(fs) && history == old(history)
      ensures Healthy(machine) && CanAdd(old(fs), p) ==> ok
    {
      hide WellFormed, Frame, Trace, Free, Untaken, Passes, Clears, AddFile, HoldsBytes, CanAdd;
      var before := fs;
      var allowed := CanAdd(before, p);
      var half := Upto(bytes, machine.cut(clock));
      CanWrite(before, p, "");
      CanWrite(before, p, half);
      CanWrite(before, p, bytes);
      NowFree(history, before, reserved);
      ok := Attempt(allowed, AddFile(before, p, ""), {p});
      if !ok { return; }
      FrameFree(before, AddFile(before, p, half), {p}, {}, reserved);
      FrameFree(before, AddFile(before, p, bytes), {p}, {}, reserved);
      TraceAdd(before, history, |old(history)|, Moment(AddFile(before, p, half), linked, recorded), {p}, {});
      Install(AddFile(before, p, half));
      ok := Tick();
      if !ok { return; }
      TraceAdd(before, history, |old(history)|, Moment(AddFile(before, p, bytes), linked, recorded), {p}, {});
      Install(AddFile(before, p, bytes));
      ok := Tick();
    }

    /** RemoveAll: one name at a time, deepest first; an error stops it part way. */
    method RemoveAll(p: Path)
      requires Valid() && p != [] && Clears(reserved, p)
      modifies this`clock, this`fs, this`history
      ensures Stepped({p}, {})
      ensures Healthy(machine) ==> p !in fs.names
    {
      hide WellFormed, Frame, Trace, Free, Untaken, Passes, Clears;
      TraceStart(fs, history, Flags(linked, recorded), {p}, {});
      var rest := set q | q in fs.names && p <= q;
      while rest != {}
        invariant Stepped({p}, {})
        invariant rest == set q | q in fs.names && p <= q
        decreases rest
      {
        var q := Deepest(rest);
        var ok := Tick();
        if !ok { return; }
        DropKeeps(fs, q);
        ClearsBelow(reserved, p, q);
        NowFree(history, fs, reserved);
        FrameFree(fs, Drop(fs, q), {q}, {}, reserved);
        FrameWithin(old(fs), fs, Drop(fs, q), p, q);
        TraceAdd(old(fs), history, |old(history)|, Moment(Drop(fs, q), linked, recorded), {p}, {});
        Install(Drop(fs, q));
        rest := rest - {q};
      }
      assert p in fs.names ==> p in rest;
    }
  }

  function Upto(s: string, n: nat): string { if n < |s| then s[..n] else s }

  lemma CanWrite(fs: Fs, p: Path, bytes: string)
    requires WellFormed(fs)
    ensures CanAdd(fs, p) ==>
      WellFormed(AddFile(fs, p, bytes)) && Frame(fs, AddFile(fs, p, bytes), {p}, {}) &&
      HoldsBytes(AddFile(fs, p, bytes), p, bytes)
  {
    hide WellFormed, Frame, AddFile, CanAdd, HoldsBytes;
    if CanAdd(fs, p) { AddFileKeeps(fs, p, bytes); }
  }

  method Deepest(s: set<Path>) returns (deepest: Path)
    requires s != {}
    ensures deepest in s && forall q :: q in s ==> |q| <= |deepest|
  {
    deepest :| deepest in s;
    var rest := s - {deepest};
    while rest != {}
      invariant rest <= s && deepest in s && forall q :: q in s && q !in rest ==> |q| <= |deepest|
      decreases rest
    {
      var q :| q in rest;
      if |q| > |deepest| { deepest := q; }
      rest := rest - {q};
    }
  }

  lemma FrameWithin(a: Fs, b: Fs, c: Fs, p: Path, q: Path)
    requires Frame(a, b, {p}, {}) && Frame(b, c, {q}, {}) && p <= q
    ensures Frame(a, c, {p}, {})
  {
    forall x | Under(x, {q}) ensures Under(x, {p}) { }
  }

  lemma FramedFile(a: Fs, b: Fs, dirs: set<Path>, q: Path)
    requires Frame(a, b, {}, dirs) && IsFile(b, q)
    ensures IsFile(a, q)
  {
    assert !Under(q, {});
  }

  lemma MissingUnblocked(fs: Fs, i: nat, p: Path)
    requires WellFormed(fs) && 1 <= i <= |p| && p[..i] !in fs.names && IsDir(fs, p[..i - 1])
    ensures p !in fs.names && !Blocked(fs, p)
  {
    assert p[..i] <= p;
    if p in fs.names && p[..i] != p { AncestorIsDir(fs, p[..i], p); }
    forall j | 0 <= j < |p| ensures !IsFile(fs, p[..j]) {
      if j < i - 1 {
        AncestorIsDir(fs, p[..j], p[..i - 1]);
      } else if j > i && p[..j] in fs.names {
        assert p[..i] <= p[..j];
        AncestorIsDir(fs, p[..i], p[..j]);
      }
    }
  }
}
