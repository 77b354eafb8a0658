/** A symlink-free file system: names to nodes, inodes to bytes. Hard links are two names for one
    inode; renaming a directory moves every name below it. */
module FileSystem {
  import opened Paths

  datatype Node = Dir | File(ino: nat)

  datatype Fs = Fs(names: map<Path, Node>, data: map<nat, string>, next: nat)

  /** What every state of the disk satisfies, whoever wrote it. */
  ghost predicate WellFormed(fs: Fs) {
    [] in fs.names && fs.names[[]] == Dir &&
    (forall p :: p in fs.names && p != [] ==> IsDir(fs, Parent(p))) &&
    (forall p :: p in fs.names && fs.names[p].File? ==> fs.names[p].ino in fs.data) &&
    (forall i :: i in fs.data ==> i < fs.next)
  }

  function Parent(p: Path): Path
    requires p != []
  {
    p[..|p| - 1]
  }

  predicate IsDir(fs: Fs, p: Path) { p in fs.names && fs.names[p] == Dir }

  predicate IsFile(fs: Fs, p: Path) { p in fs.names && fs.names[p].File? }

  predicate HoldsBytes(fs: Fs, p: Path, bytes: string) {
    IsFile(fs, p) && fs.names[p].ino in fs.data && fs.data[fs.names[p].ino] == bytes
  }

  /** Some proper ancestor is a file, so the path can be neither opened nor created. */
  predicate Blocked(fs: Fs, p: Path) {
    exists i :: 0 <= i < |p| && IsFile(fs, p[..i])
  }

  predicate CanAdd(fs: Fs, p: Path) { p != [] && p !in fs.names && IsDir(fs, Parent(p)) }

  predicate IsLeaf(fs: Fs, p: Path) { forall q :: q in fs.names && p <= q ==> q == p }

  // ----- system calls as state changes -----

  function AddDir(fs: Fs, p: Path): Fs { fs.(names := fs.names[p := Dir]) }

  function AddFile(fs: Fs, p: Path, bytes: string): Fs {
    Fs(fs.names[p := File(fs.next)], fs.data[fs.next := bytes], fs.next + 1)
  }

  function AddLink(fs: Fs, source: Path, target: Path): Fs
    requires source in fs.names
  {
    fs.(names := fs.names[target := fs.names[source]])
  }

  function Drop(fs: Fs, p: Path): Fs { fs.(names := fs.names - {p}) }

  function Moved(fs: Fs, source: Path, target: Path): set<Path> {
    set q | q in fs.names && source <= q :: target + q[|source|..]
  }

  function MoveTree(fs: Fs, source: Path, target: Path): Fs {
    var kept := map q | q in fs.names && !(source <= q) :: fs.names[q];
    var moved := map r | r in Moved(fs, source, target) && target <= r && source + r[|target|..] in fs.names
      :: fs.names[source + r[|target|..]];
    fs.(names := kept + moved)
  }

  // ----- framing -----

  ghost predicate Under(p: Path, roots: set<Path>) { exists r :: r in roots && r <= p }

  ghost predicate Leads(p: Path, dirs: set<Path>) { exists d :: d in dirs && p <= d }

  /** From a to b only names below `roots` change, except that missing directories on the way to
      `dirs` may appear; bytes already on disk stay as they are. */
  ghost predicate Frame(a: Fs, b: Fs, roots: set<Path>, dirs: set<Path>) {
    a.next <= b.next &&
    (forall i :: i in a.data ==> i in b.data && b.data[i] == a.data[i]) &&
    (forall p :: p in a.names && !Under(p, roots) ==> p in b.names && b.names[p] == a.names[p]) &&
    (forall p :: p in b.names && !Under(p, roots) ==> p in a.names || (b.names[p] == Dir && Leads(p, dirs)))
  }

  /** Everything at and below y is as it was. */
  ghost predicate Same(a: Fs, b: Fs, y: Path) {
    (forall i :: i in a.data ==> i in b.data && b.data[i] == a.data[i]) &&
    forall p :: y <= p ==> (p in a.names <==> p in b.names) && (p in a.names ==> a.names[p] == b.names[p])
  }

  ghost predicate Spared(y: Path, roots: set<Path>, dirs: set<Path>) {
    (forall r :: r in roots ==> Apart(r, y)) && forall d :: d in dirs ==> !(y <= d)
  }

  lemma PrefixesCompare(p: Path, q: Path, s: Path)
    requires p <= s && q <= s
    ensures p <= q || q <= p
  {
    assert p == s[..|p|] && q == s[..|q|];
  }

  lemma FrameSame(a: Fs, b: Fs, roots: set<Path>, dirs: set<Path>, y: Path)
    requires Frame(a, b, roots, dirs) && Spared(y, roots, dirs)
    ensures Same(a, b, y)
  {
    forall p | y <= p ensures !Under(p, roots) && !Leads(p, dirs) {
      if Under(p, roots) {
        var r :| r in roots && r <= p;
        PrefixesCompare(r, y, p);
      }
    }
  }

  lemma FrameReflexive(a: Fs, roots: set<Path>, dirs: set<Path>)
    ensures Frame(a, a, roots, dirs)
  {
  }

  lemma FrameTransitive(a: Fs, b: Fs, c: Fs, roots: set<Path>, dirs: set<Path>)
    requires Frame(a, b, roots, dirs) && Frame(b, c, roots, dirs)
    ensures Frame(a, c, roots, dirs)
  {
  }

  lemma {:induction false} AncestorIsDir(fs: Fs, q: Path, p: Path)
    requires WellFormed(fs) && p in fs.names && q <= p && q != p
    ensures IsDir(fs, q)
    decreases |p|
  {
    assert IsDir(fs, Parent(p));
    if q != Parent(p) {
      assert q == Parent(p)[..|q|];
      AncestorIsDir(fs, q, Parent(p));
    }
  }

  lemma AncestorsPresent(fs: Fs, p: Path)
    requires WellFormed(fs) && p in fs.names
    ensures !Blocked(fs, p)
  {
    forall i | 0 <= i < |p| ensures !IsFile(fs, p[..i]) { AncestorIsDir(fs, p[..i], p); }
  }

  lemma NothingBelow(fs: Fs, p: Path, q: Path)
    requires WellFormed(fs) && !IsDir(fs, p) && p <= q && q != p
    ensures q !in fs.names
  {
    if q in fs.names { AncestorIsDir(fs, p, q); }
  }

  // ----- trees and their copies -----

  function Bytes(fs: Fs, p: Path): string
    requires IsFile(fs, p) && fs.names[p].ino in fs.data
  {
    fs.data[fs.names[p].ino]
  }

  /** The files below p, by relative path. */
  function Relative(fs: Fs, p: Path): set<Path> {
    set q | q in fs.names && p <= q && fs.names[q].File? :: q[|p|..]
  }

  function TreeOf(fs: Fs, p: Path): map<Path, string> {
    map r | r in Relative(fs, p) && IsFile(fs, p + r) && fs.names[p + r].ino in fs.data :: Bytes(fs, p + r)
  }

  predicate SameNode(a: Fs, p: Path, b: Fs, q: Path) {
    (IsDir(a, p) && IsDir(b, q)) ||
    (IsFile(a, p) && IsFile(b, q) && a.names[p].ino in a.data && b.names[q].ino in b.data && Bytes(a, p) == Bytes(b, q))
  }

  /** The subtree of b at q is a copy of the subtree of a at p. */
  ghost predicate Mirror(a: Fs, p: Path, b: Fs, q: Path) {
    forall r: Path ::
      (p + r in a.names <==> q + r in b.names) && (p + r in a.names ==> SameNode(a, p + r, b, q + r))
  }

  lemma SameMirrors(a: Fs, b: Fs, y: Path)
    requires WellFormed(a) && Same(a, b, y)
    ensures Mirror(a, y, b, y)
  {
    forall r: Path ensures y <= y + r { }
  }

  lemma RelativeMember(fs: Fs, p: Path, r: Path)
    ensures r in Relative(fs, p) <==> IsFile(fs, p + r)
  {
    if IsFile(fs, p + r) { assert (p + r)[|p|..] == r; }
    if r in Relative(fs, p) {
      var q :| q in fs.names && p <= q && fs.names[q].File? && q[|p|..] == r;
      assert q == p + r;
    }
  }

  lemma MirrorTree(a: Fs, p: Path, b: Fs, q: Path)
    requires Mirror(a, p, b, q)
    ensures TreeOf(a, p) == TreeOf(b, q)
  {
    forall r: Path ensures r in TreeOf(a, p) <==> r in TreeOf(b, q) {
      RelativeMember(a, p, r);
      RelativeMember(b, q, r);
      assert p + r in a.names <==> q + r in b.names;
    }
    forall r | r in TreeOf(a, p) ensures TreeOf(a, p)[r] == TreeOf(b, q)[r] {
      assert p + r in a.names;
    }
  }

  // ----- the system calls keep the disk well formed and frame their effect -----

  lemma AddDirKeeps(fs: Fs, p: Path, target: Path)
    requires WellFormed(fs) && CanAdd(fs, p) && p <= target
    ensures WellFormed(AddDir(fs, p)) && Frame(fs, AddDir(fs, p), {}, {target}) && Frame(fs, AddDir(fs, p), {p}, {})
  {
    var after := AddDir(fs, p);
    assert Leads(p, {target}) && Under(p, {p});
    forall q | q in after.names && q != [] ensures IsDir(after, Parent(q)) { assert q != p ==> IsDir(fs, Parent(q)); }
    assert forall q :: q !in after.names || q == p || (q in fs.names && after.names[q] == fs.names[q]);
  }

  lemma AddFileKeeps(fs: Fs, p: Path, bytes: string)
    requires WellFormed(fs) && CanAdd(fs, p)
    ensures WellFormed(AddFile(fs, p, bytes)) && Frame(fs, AddFile(fs, p, bytes), {p}, {})
    ensures HoldsBytes(AddFile(fs, p, bytes), p, bytes)
  {
  }

  lemma AddLinkKeeps(fs: Fs, source: Path, p: Path)
    requires WellFormed(fs) && CanAdd(fs, p) && IsFile(fs, source)
    ensures WellFormed(AddLink(fs, source, p)) && Frame(fs, AddLink(fs, source, p), {p}, {})
    ensures Mirror(fs, source, AddLink(fs, source, p), p)
  {
    var after := AddLink(fs, source, p);
    forall r: Path
      ensures (source + r in fs.names <==> p + r in after.names)
      ensures (source + r in fs.names ==> SameNode(fs, source + r, after, p + r))
    {
      if r == [] {
        assert source + r == source && p + r == p;
      } else {
        NothingBelow(fs, source, source + r);
        NothingBelow(fs, p, p + r);
        assert p + r != p;
      }
    }
  }

  lemma DropKeeps(fs: Fs, p: Path)
    requires WellFormed(fs) && p != [] && IsLeaf(fs, p)
    ensures WellFormed(Drop(fs, p)) && Frame(fs, Drop(fs, p), {p}, {})
  {
    forall q | q in fs.names && q != [] && q != p ensures Parent(q) != p {
      if Parent(q) == p { assert p <= q; }
    }
  }

  lemma MoveNames(fs: Fs, source: Path, target: Path, q: Path)
    requires WellFormed(fs) && CanAdd(fs, target) && Apart(source, target)
    ensures var after := MoveTree(fs, source, target);
            if target <= q then (q in after.names <==> source + q[|target|..] in fs.names) &&
                                (q in after.names ==> after.names[q] == fs.names[source + q[|target|..]])
            else (q in after.names <==> q in fs.names && !(source <= q)) &&
                 (q in after.names ==> after.names[q] == fs.names[q])
  {
    if target <= q {
      var r := q[|target|..];
      assert q == target + r;
      if q in fs.names && q != target { NothingBelow(fs, target, q); }
      if source + r in fs.names { assert (source + r)[|source|..] == r && q in Moved(fs, source, target); }
      if q in Moved(fs, source, target) {
        var s :| s in fs.names && source <= s && target + s[|source|..] == q;
        assert s[|source|..] == r && s == source + r;
      }
    }
  }

  lemma MoveTreeKeeps(fs: Fs, source: Path, target: Path)
    requires WellFormed(fs) && CanAdd(fs, target) && IsDir(fs, source) && Apart(source, target) && source != []
    ensures WellFormed(MoveTree(fs, source, target))
    ensures Frame(fs, MoveTree(fs, source, target), {source, target}, {})
    ensures Mirror(fs, source, MoveTree(fs, source, target), target)
  {
    var after := MoveTree(fs, source, target);
    forall q ensures q in after.names ==>
        (after.names[q].File? ==> after.names[q].ino in after.data) && (q != [] ==> IsDir(after, Parent(q)))
    {
      MoveNames(fs, source, target, q);
      if q in after.names && q != [] { MoveParent(fs, source, target, q); }
    }
    MoveNames(fs, source, target, []);
    forall p | !Under(p, {source, target})
      ensures (p in after.names <==> p in fs.names) && (p in fs.names ==> after.names[p] == fs.names[p])
    {
      assert !(source <= p) && !(target <= p);
      MoveNames(fs, source, target, p);
    }
    forall r: Path
      ensures (source + r in fs.names <==> target + r in after.names)
      ensures (source + r in fs.names ==> SameNode(fs, source + r, after, target + r))
    {
      MoveNames(fs, source, target, target + r);
      assert (target + r)[|target|..] == r;
    }
  }

  lemma ParentConcat(p: Path, r: Path)
    requires r != []
    ensures Parent(p + r) == p + Parent(r) && p <= Parent(p + r)
  {
  }

  lemma ParentPrefix(p: Path, q: Path)
    requires q != []
    ensures p <= Parent(q) ==> p <= q
    ensures p <= q && p != q ==> p <= Parent(q)
  {
  }

  lemma MoveParent(fs: Fs, source: Path, target: Path, q: Path)
    requires WellFormed(fs) && CanAdd(fs, target) && IsDir(fs, source) && Apart(source, target)
    requires q in MoveTree(fs, source, target).names && q != []
    ensures IsDir(MoveTree(fs, source, target), Parent(q))
  {
    MoveNames(fs, source, target, q);
    MoveNames(fs, source, target, Parent(q));
    ParentPrefix(source, q);
    ParentPrefix(target, q);
    if q == target {
      ParentPrefix(source, target);
    } else if target <= q {
      var r := q[|target|..];
      assert q == target + r;
      ParentConcat(target, r);
      ParentConcat(source, r);
      assert Parent(q)[|target|..] == Parent(r);
      assert source + r in fs.names;
      assert IsDir(fs, Parent(source + r));
    } else {
      assert IsDir(fs, Parent(q));
    }
  }
}
