/** Sealing one staged output: a private copy, hashed. */
module Snapshots {
  import opened Paths
  import opened Contract
  import opened FileSystem
  import opened Workspaces

  /** The part of the tree at `source` not in `rest` has been copied to `target`, and nothing else. */
  ghost predicate Copied(base: Fs, fs: Fs, source: Path, target: Path, rest: set<Path>) {
    forall r: Path ::
      (target + r in fs.names <==> source + r in base.names && source + r !in rest) &&
      (target + r in fs.names ==> SameNode(base, source + r, fs, target + r))
  }

  lemma CopiedAll(base: Fs, fs: Fs, source: Path, target: Path)
    requires Copied(base, fs, source, target, {})
    ensures Mirror(base, source, fs, target)
  {
    forall r: Path
      ensures (source + r in base.names <==> target + r in fs.names) &&
              (source + r in base.names ==> SameNode(base, source + r, fs, target + r))
    {
      assert target + r in fs.names <==> source + r in base.names && source + r !in {};
    }
  }

  lemma CopyStart(before: Fs, source: Path, target: Path)
    requires WellFormed(before) && CanAdd(before, target) && IsDir(before, source) && Apart(source, target)
    ensures var base := AddDir(before, target);
            Copied(base, base, source, target, set q | q in base.names && source <= q && q != source)
  {
    var base := AddDir(before, target);
    var rest := set q | q in base.names && source <= q && q != source;
    forall r: Path
      ensures (target + r in base.names <==> source + r in base.names && source + r !in rest) &&
              (target + r in base.names ==> SameNode(base, source + r, base, target + r))
    {
      if r == [] {
        assert target + r == target && source + r == source;
      } else {
        assert target + r != target && source + r != source;
        NothingBelow(before, target, target + r);
      }
    }
  }

  /** Copying q, whose descendants all remain to be copied. */
  lemma CopyStep(base: Fs, a: Fs, b: Fs, source: Path, target: Path, rest: set<Path>, q: Path)
    requires Copied(base, a, source, target, rest) && WellFormed(a) && WellFormed(b)
    requires q in rest && source <= q && q in base.names && forall x :: x in base.names && q <= x ==> x in rest
    requires var t := target + q[|source|..];
             Frame(a, b, {t}, {}) && !IsDir(a, t) && SameNode(base, q, b, t) && IsLeaf(b, t)
    ensures Copied(base, b, source, target, rest - {q})
  {
    var s := q[|source|..];
    var t := target + s;
    assert q == source + s;
    forall r: Path
      ensures (target + r in b.names <==> source + r in base.names && source + r !in rest - {q}) &&
              (target + r in b.names ==> SameNode(base, source + r, b, target + r))
    {
      assert target + r in a.names <==> source + r in base.names && source + r !in rest;
      if r == s {
      } else if s <= r {
        assert t <= target + r && t != target + r && q <= source + r && q != source + r;
      } else {
        SuffixPrefix(target, s, r);
        assert !Under(target + r, {t});
        assert source + r != q by { assert (source + r)[|source|..] == r; }
      }
    }
  }

  lemma SuffixPrefix(p: Path, s: Path, r: Path)
    ensures p + s <= p + r <==> s <= r
  {
    if p + s <= p + r {
      assert (p + r)[|p|..] == r && (p + s)[|p|..] == s;
      assert (p + r)[..|p + s|] == p + s;
      assert r[..|s|] == (p + r)[|p|..|p + s|] == s;
    }
    if s <= r { assert p + r == (p + s) + r[|s|..]; }
  }

  method Shallowest(s: set<Path>) returns (p: Path)
    requires s != {}
    ensures p in s && forall q :: q in s ==> |p| <= |q|
  {
    p :| p in s;
    var rest := s - {p};
    while rest != {}
      invariant rest <= s && p in s && forall q :: q in s && q !in rest ==> |p| <= |q|
      decreases rest
    {
      var q :| q in rest;
      if |q| < |p| { p := q; }
      rest := rest - {q};
    }
  }

  /** One entry of the walk: its name must be acceptable, a directory is made, a file is copied. */
  method CopyEntry(root: Workspace, source: Path, target: Path, q: Path, ghost base: Fs) returns (ok: bool)
    requires root.Valid() && Clears(root.reserved, target) && source <= q && q != source && Apart(source, target)
    requires q in root.fs.names && Same(base, root.fs, source) && WellFormed(base)
    modifies root`clock, root`fs, root`history
    ensures root.Stepped({target + q[|source|..]}, {})
    ensures var t := target + q[|source|..];
            ok ==> CanAdd(old(root.fs), t) && SameNode(base, q, root.fs, t) && IsLeaf(root.fs, t)
    ensures Healthy(root.machine) && root.machine.entry(q[|source|..]) &&
            CanAdd(old(root.fs), target + q[|source|..]) ==>
      ok
  {
    var t := target + q[|source|..];
    ghost var before := root.fs;
    EntryNode(base, before, source, q);
    hide Frame, Trace, WellFormed, Same, CanAdd, HoldsBytes, SameNode, IsLeaf;
    TraceStart(root.fs, root.history, Flags(root.linked, root.recorded), {t}, {});
    if !root.machine.entry(q[|source|..]) { return false; }
    if IsDir(root.fs, q) {
      ok := root.Mkdir(t);
      if ok { DirCopied(base, before, q, t); }
    } else {
      var bytes := Bytes(root.fs, q);
      ok := root.WriteSealed(t, bytes);
      if ok { FileCopied(base, before, root.fs, q, t, bytes); }
    }
  }

  lemma EntryNode(base: Fs, fs: Fs, source: Path, q: Path)
    requires WellFormed(fs) && Same(base, fs, source) && WellFormed(base) && source <= q && q in fs.names
    ensures q in base.names && base.names[q] == fs.names[q]
    ensures (IsDir(fs, q) || (IsFile(fs, q) && fs.names[q].ino in fs.data))
    ensures IsFile(fs, q) ==> IsFile(base, q) && base.names[q].ino in base.data && Bytes(base, q) == Bytes(fs, q)
  {
  }

  lemma DirCopied(base: Fs, before: Fs, q: Path, t: Path)
    requires WellFormed(before) && IsDir(base, q) && CanAdd(before, t)
    ensures SameNode(base, q, AddDir(before, t), t) && IsLeaf(AddDir(before, t), t)
  {
    forall x | x in AddDir(before, t).names && t <= x ensures x == t { if x != t { NothingBelow(before, t, x); } }
  }

  lemma FileCopied(base: Fs, before: Fs, after: Fs, q: Path, t: Path, bytes: string)
    requires WellFormed(after) && HoldsBytes(after, t, bytes)
    requires IsFile(base, q) && base.names[q].ino in base.data && Bytes(base, q) == bytes
    ensures SameNode(base, q, after, t) && IsLeaf(after, t)
  {
    forall x | x in after.names && t <= x ensures x == t { if x != t { NothingBelow(after, t, x); } }
  }

  lemma TraceWithin(base: Fs, now: Fs, history: seq<Moment>, from: nat, flags: Flags, top: Path, p: Path)
    requires Trace(base, history, from, flags, {p}, {}) && Frame(base, now, {p}, {}) && top <= p
    ensures Trace(base, history, from, flags, {top}, {}) && Frame(base, now, {top}, {})
  {
    FrameReflexive(base, {top}, {});
    FrameWithin(base, base, now, top, p);
    forall k | from <= k < |history| ensures Frame(base, history[k].fs, {top}, {}) {
      FrameWithin(base, base, history[k].fs, top, p);
    }
  }

  /** What is still to be copied: closed under going down. */
  ghost predicate Remaining(base: Fs, source: Path, rest: set<Path>) {
    (forall q :: q in rest ==> q in base.names && source <= q && q != source) &&
    forall q, x :: q in rest && x in base.names && q <= x ==> x in rest
  }

  lemma CopyRoom(base: Fs, fs: Fs, source: Path, target: Path, rest: set<Path>, q: Path)
    requires WellFormed(base) && Copied(base, fs, source, target, rest) && Remaining(base, source, rest)
    requires q in rest && forall x :: x in rest ==> |q| <= |x|
    ensures CanAdd(fs, target + q[|source|..])
  {
    var r := q[|source|..];
    assert q == source + r && r != [];
    ParentConcat(source, r);
    ParentConcat(target, r);
    assert IsDir(base, Parent(q)) && Parent(q) !in rest;
    assert target + Parent(r) in fs.names <==> source + Parent(r) in base.names && source + Parent(r) !in rest;
    assert SameNode(base, source + Parent(r), fs, target + Parent(r));
    assert target + r in fs.names <==> source + r in base.names && source + r !in rest;
  }

  lemma RemainingLess(base: Fs, source: Path, rest: set<Path>, q: Path)
    requires Remaining(base, source, rest) && q in rest && forall x :: x in rest ==> |q| <= |x|
    ensures Remaining(base, source, rest - {q})
  {
    forall p, x | p in rest - {q} && x in base.names && p <= x ensures x in rest - {q} {
      assert p <= q ==> p == q;
    }
  }

  lemma KeepsSource(base: Fs, a: Fs, b: Fs, source: Path, target: Path)
    requires Same(base, a, source) && Frame(a, b, {target}, {}) && Apart(source, target)
    ensures Same(base, b, source)
  {
    FrameSame(a, b, {target}, {}, source);
  }

  lemma EntryGood(m: Machine, base: Fs, source: Path, q: Path)
    requires GoodEntries(m, base, source) && q in base.names && source <= q && q != source
    ensures m.entry(q[|source|..])
  {
  }

  /** One round of the walk, with everything the next one needs. */
  method CopyNext(root: Workspace, source: Path, target: Path, rest: set<Path>, ghost base: Fs)
    returns (ok: bool, left: set<Path>)
    requires root.Valid() && Clears(root.reserved, target) && Apart(source, target) && WellFormed(base) && rest != {}
    requires Same(base, root.fs, source) && Copied(base, root.fs, source, target, rest) && Remaining(base, source, rest)
    modifies root`clock, root`fs, root`history
    ensures root.Stepped({target}, {}) && Same(base, root.fs, source)
    ensures ok ==> left < rest && Copied(base, root.fs, source, target, left) && Remaining(base, source, left)
    ensures Healthy(root.machine) && GoodEntries(root.machine, base, source) ==> ok
  {
    hide WellFormed, Frame, Trace, Same, Copied, GoodEntries;
    left := rest;
    var q := Shallowest(rest);
    CopyRoom(base, root.fs, source, target, rest, q);
    StillThere(base, root.fs, source, q);
    if GoodEntries(root.machine, base, source) { EntryGood(root.machine, base, source, q); }
    ok := CopyEntry(root, source, target, q, base);
    TraceWithin(old(root.fs), root.fs, root.history, |old(root.history)|, Flags(root.linked, root.recorded), target,
                target + q[|source|..]);
    KeepsSource(base, old(root.fs), root.fs, source, target);
    if ok {
      CopyStep(base, old(root.fs), root.fs, source, target, rest, q);
      RemainingLess(base, source, rest, q);
      left := rest - {q};
    }
  }

  lemma StillThere(base: Fs, fs: Fs, source: Path, q: Path)
    requires Same(base, fs, source) && q in base.names && source <= q
    ensures q in fs.names
  {
  }

  /** The walk of snapshotRootTree, parents before children. */
  method CopyTree(root: Workspace, source: Path, target: Path) returns (made: bool, ok: bool)
    requires root.Valid() && Clears(root.reserved, target) && Apart(source, target) && IsDir(root.fs, source)
    modifies root`clock, root`fs, root`history
    ensures root.Stepped({target}, {})
    ensures ok ==> made && Mirror(old(root.fs), source, root.fs, target)
    ensures !made ==> root.fs == old(root.fs)
    ensures Healthy(root.machine) && CanAdd(old(root.fs), target) &&
            GoodEntries(root.machine, old(root.fs), source) ==>
      ok
  {
    hide WellFormed, Frame, Trace, Same, Copied, GoodEntries, Mirror, Remaining;
    made := root.Mkdir(target);
    ok := made;
    if !made { return; }
    ghost var base := root.fs;
    CopyStart(old(root.fs), source, target);
    KeepsSource(old(root.fs), old(root.fs), base, source, target) by { SameSelf(old(root.fs), source); }
    SameSelf(base, source);
    GoodStays(root.machine, old(root.fs), base, source);
    var rest := set q | q in root.fs.names && source <= q && q != source;
    StartRemaining(base, source, rest);
    while rest != {}
      invariant root.Stepped({target}, {}) && Same(base, root.fs, source)
      invariant Copied(base, root.fs, source, target, rest) && Remaining(base, source, rest)
      decreases rest
    {
      ghost var mid, before := root.fs, root.history;
      ok, rest := CopyNext(root, source, target, rest, base);
      TraceThen(old(root.fs), mid, before, root.history, |old(root.history)|, Flags(root.linked, root.recorded),
                {target}, {});
      if !ok { return; }
    }
    CopiedAll(base, root.fs, source, target);
    MirrorFrom(old(root.fs), base, root.fs, source, target);
    ok := true;
  }

  lemma SameSelf(fs: Fs, y: Path)
    ensures Same(fs, fs, y)
  {
  }

  lemma GoodStays(m: Machine, a: Fs, b: Fs, source: Path)
    requires Same(a, b, source)
    ensures GoodEntries(m, a, source) <==> GoodEntries(m, b, source)
  {
  }

  lemma StartRemaining(base: Fs, source: Path, rest: set<Path>)
    requires rest == set q | q in base.names && source <= q && q != source
    ensures Remaining(base, source, rest)
  {
  }

  lemma MirrorFrom(a: Fs, base: Fs, b: Fs, source: Path, target: Path)
    requires Same(a, base, source) && Mirror(base, source, b, target) && WellFormed(a)
    ensures Mirror(a, source, b, target)
  {
    forall r: Path
      ensures (source + r in a.names <==> target + r in b.names)
      ensures (source + r in a.names ==> SameNode(a, source + r, b, target + r))
    {
      assert source <= source + r;
      assert source + r in base.names <==> target + r in b.names;
    }
  }

  /** snapshotRootTree: copy, hash the copy, and remove it if either failed. */
  method SnapshotTree(root: Workspace, source: Path, target: Path) returns (digest: Option<string>)
    requires root.Valid() && Clears(root.reserved, target) && Apart(source, target) && target != []
    modifies root`clock, root`fs, root`history
    ensures root.Stepped({target}, {})
    ensures digest.Some? ==>
      DigestAt(root.machine, root.fs, TREE, target) == digest == DigestAt(root.machine, old(root.fs), TREE, source)
    ensures Healthy(root.machine) && DigestAt(root.machine, old(root.fs), TREE, source).Some? &&
            CanAdd(old(root.fs), target) ==>
      digest == DigestAt(root.machine, old(root.fs), TREE, source)
    ensures Healthy(root.machine) && digest == None && target !in old(root.fs.names) ==> target !in root.fs.names
  {
    hide WellFormed, Frame, Trace, GoodEntries, Mirror, CanAdd, TreeOf;
    TraceStart(root.fs, root.history, Flags(root.linked, root.recorded), {target}, {});
    if IsDir(root.fs, source) { AncestorsPresent(root.fs, source); }
    var ok := root.CheckPath(source, false);
    if !ok || !IsDir(root.fs, source) { return None; }
    var made;
    made, ok := CopyTree(root, source, target);
    if !made { return None; }
    if ok {
      MirrorDigest(root.machine, TREE, old(root.fs), source, root.fs, target);
      digest := root.Hash(TREE, target);
      if digest.Some? { return; }
    }
    ghost var mid, before := root.fs, root.history;
    root.RemoveAll(target);
    TraceThen(old(root.fs), mid, before, root.history, |old(root.history)|, Flags(root.linked, root.recorded),
              {target}, {});
    digest := None;
  }

  /** snapshotRootFile: copy and hash in one pass. */
  method SnapshotFile(root: Workspace, source: Path, target: Path) returns (digest: Option<string>)
    requires root.Valid() && Clears(root.reserved, target)
    modifies root`clock, root`fs, root`history
    ensures root.Stepped({target}, {})
    ensures digest.Some? ==>
      DigestAt(root.machine, root.fs, FILE, target) == digest == DigestAt(root.machine, old(root.fs), FILE, source)
    ensures Healthy(root.machine) && DigestAt(root.machine, old(root.fs), FILE, source).Some? &&
            CanAdd(old(root.fs), target) ==>
      digest == DigestAt(root.machine, old(root.fs), FILE, source)
  {
    hide WellFormed, Frame, Trace, CanAdd;
    TraceStart(root.fs, root.history, Flags(root.linked, root.recorded), {target}, {});
    if IsFile(root.fs, source) { AncestorsPresent(root.fs, source); FileHasBytes(root.fs, source); }
    var ok := root.CheckPath(source, false);
    if !ok || !IsFile(root.fs, source) { return None; }
    var bytes := Bytes(root.fs, source);
    ok := root.WriteSealed(target, bytes);
    digest := if ok then Some(root.machine.codec.sha256(bytes)) else None;
  }

  lemma FileHasBytes(fs: Fs, p: Path)
    requires WellFormed(fs) && IsFile(fs, p)
    ensures fs.names[p].ino in fs.data
  {
  }

  /** snapshotRootArtifact. */
  method Snapshot(root: Workspace, kind: string, source: Path, target: Path) returns (digest: Option<string>)
    requires root.Valid() && Clears(root.reserved, target) && Apart(source, target) && target != []
    modifies root`clock, root`fs, root`history
    ensures root.Stepped({target}, {})
    ensures digest.Some? ==>
      DigestAt(root.machine, root.fs, kind, target) == digest == DigestAt(root.machine, old(root.fs), kind, source)
    ensures Healthy(root.machine) && DigestAt(root.machine, old(root.fs), kind, source).Some? &&
            CanAdd(old(root.fs), target) ==>
      digest == DigestAt(root.machine, old(root.fs), kind, source)
  {
    hide WellFormed, Frame, Trace, CanAdd, GoodEntries, TreeOf;
    if kind == FILE {
      digest := SnapshotFile(root, source, target);
    } else if kind == TREE {
      digest := SnapshotTree(root, source, target);
    } else {
      TraceStart(root.fs, root.history, Flags(root.linked, root.recorded), {target}, {});
      digest := None;
    }
  }
}
