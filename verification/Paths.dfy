/** Slash paths: path.Clean, the clean-relative test, and the alias check that keeps the paths of
    one runner spec an antichain. A Go string is a sequence of bytes; one char stands for one byte.
  */
module Paths {
  import opened Order

  type Path = seq<string>

  const STAGING: string := ".dhnt-staging"

  function Split(s: string): (r: Path)
    ensures |r| > 0
    ensures forall x :: x in r ==> '/' !in x
  {
    if s == [] then [""]
    else
      var t := Split(s[1..]);
      if s[0] == '/' then [""] + t else [[s[0]] + t[0]] + t[1..]
  }

  function Join(segs: Path): string {
    if segs == [] then ""
    else if |segs| == 1 then segs[0]
    else segs[0] + "/" + Join(segs[1..])
  }

  /** The element stack of path.Clean: empty and `.` vanish, `..` pops an inner element, is dropped
      at a root, and is kept otherwise. */
  function Resolve(segs: Path, rooted: bool, out: Path): Path {
    if segs == [] then out
    else
      var x := segs[0];
      var next :=
        if x == "" || x == "." then out
        else if x == ".." then
          if out != [] && out[|out| - 1] != ".." then out[..|out| - 1]
          else if rooted then out
          else out + [".."]
        else out + [x];
      Resolve(segs[1..], rooted, next)
  }

  function Clean(s: string): string {
    var rooted := s != "" && s[0] == '/';
    var body := Join(Resolve(Split(s), rooted, []));
    if rooted then "/" + body else if body == "" then "." else body
  }

  predicate CleanNames(value: string) {
    value != "" && value != "." && !("/" <= value) && '\\' !in value && Clean(value) == value &&
    value != ".." && !("../" <= value)
  }

  predicate CleanRelative(value: string) { CleanNames(value) && '\0' !in value }

  predicate CleanAbsolute(value: string) {
    "/" <= value && '\0' !in value && Clean(value) == value && value != "/"
  }

  predicate PathWithin(parent: string, child: string) {
    parent == child || (parent != "." && parent + "/" <= child)
  }

  predicate Reserved(value: string) {
    value == STAGING || STAGING + "/" <= value
  }

  /** Neither path lies at or below the other. */
  predicate Apart(p: Path, q: Path) { !(p <= q) && !(q <= p) }

  predicate Plain(segment: string) {
    segment != "" && segment != "." && segment != ".."
  }

  // ----- splitting and joining -----

  lemma {:induction false} JoinSplit(s: string)
    ensures Join(Split(s)) == s
  {
    if s != [] {
      var t := Split(s[1..]);
      JoinSplit(s[1..]);
      if s[0] == '/' {
        assert ([""] + t)[1..] == t;
        assert s == "" + "/" + s[1..];
      } else {
        var r := [[s[0]] + t[0]] + t[1..];
        assert r[1..] == t[1..];
        assert Join(r) == [s[0]] + Join(t);
        assert s == [s[0]] + s[1..];
      }
    }
  }

  lemma {:induction false} SplitWhole(x: string)
    requires '/' !in x
    ensures Split(x) == [x]
  {
    if x != [] {
      SplitWhole(x[1..]);
      assert x == [x[0]] + x[1..];
    }
  }

  /** One more byte in front of a split string. */
  function Prepend(c: char, t: Path): Path
    requires t != []
  {
    if c == '/' then [""] + t else [[c] + t[0]] + t[1..]
  }

  lemma SplitStep(c: char, s: string)
    ensures Split([c] + s) == Prepend(c, Split(s))
  {
    assert ([c] + s)[1..] == s;
  }

  lemma PrependConcat(c: char, a: Path, b: Path)
    requires a != []
    ensures Prepend(c, a + b) == Prepend(c, a) + b
  {
    assert (a + b)[1..] == a[1..] + b;
  }

  lemma {:induction false} SplitConcat(p: string, t: string)
    ensures Split(p + "/" + t) == Split(p) + Split(t)
  {
    hide Prepend;
    if p == [] {
      SplitStep('/', t);
      assert p + "/" + t == ['/'] + t;
    } else {
      SplitConcat(p[1..], t);
      SplitStep(p[0], p[1..]);
      SplitStep(p[0], p[1..] + "/" + t);
      assert p + "/" + t == [p[0]] + (p[1..] + "/" + t) && p == [p[0]] + p[1..];
      PrependConcat(p[0], Split(p[1..]), Split(t));
    }
  }

  lemma {:induction false} SplitJoin(segs: Path)
    requires segs != [] && forall x :: x in segs ==> '/' !in x
    ensures Split(Join(segs)) == segs
  {
    SplitWhole(segs[0]);
    if |segs| > 1 {
      SplitJoin(segs[1..]);
      SplitConcat(segs[0], Join(segs[1..]));
    }
  }

  lemma {:induction false} JoinConcat(a: Path, b: Path)
    requires a != [] && b != []
    ensures Join(a + b) == Join(a) + "/" + Join(b)
  {
    if |a| == 1 {
      assert (a + b)[1..] == b;
    } else {
      assert (a + b)[1..] == a[1..] + b;
      JoinConcat(a[1..], b);
    }
  }

  lemma SlashPrefixForward(p: string, c: string)
    requires p + "/" <= c
    ensures Split(p) <= Split(c) && p != c
  {
    var t := c[|p| + 1..];
    assert c == p + "/" + t;
    SplitConcat(p, t);
  }

  lemma SlashPrefixBackward(p: string, c: string)
    requires Split(p) <= Split(c) && p != c
    ensures p + "/" <= c
  {
    JoinSplit(p);
    JoinSplit(c);
    var a, b := Split(p), Split(c);
    assert |a| == |b| ==> a == b;
    assert b == a + b[|a|..];
    JoinConcat(a, b[|a|..]);
  }

  /** `p/` is a string prefix of `c` exactly when p's segments are a proper prefix of c's. */
  lemma SlashPrefix(p: string, c: string)
    ensures p + "/" <= c <==> Split(p) <= Split(c) && p != c
  {
    if p + "/" <= c { SlashPrefixForward(p, c); }
    if Split(p) <= Split(c) && p != c { SlashPrefixBackward(p, c); }
  }

  // ----- path.Clean on relative paths -----

  /** What Resolve can hold: leading `..` elements, then plain ones. */
  predicate Shaped(out: Path) {
    forall i :: 0 <= i < |out| ==>
      out[i] != "" && out[i] != "." && '/' !in out[i] && (out[i] == ".." && i > 0 ==> out[i - 1] == "..")
  }

  lemma {:induction false} ResolveShaped(segs: Path, out: Path)
    requires Shaped(out) && forall x :: x in segs ==> '/' !in x
    ensures Shaped(Resolve(segs, false, out))
  {
    if segs != [] {
      var x := segs[0];
      var next :=
        if x == "" || x == "." then out
        else if x == ".." then
          if out != [] && out[|out| - 1] != ".." then out[..|out| - 1] else out + [".."]
        else out + [x];
      assert Shaped(next);
      ResolveShaped(segs[1..], next);
    }
  }

  lemma {:induction false} ResolvePlain(segs: Path, out: Path)
    requires forall x :: x in segs ==> Plain(x)
    ensures Resolve(segs, false, out) == out + segs
  {
    if segs != [] {
      assert Plain(segs[0]);
      ResolvePlain(segs[1..], out + [segs[0]]);
      assert out + [segs[0]] + segs[1..] == out + segs;
    } else {
      assert out + segs == out;
    }
  }

  lemma {:induction false} ShapedPlain(out: Path, i: nat)
    requires Shaped(out) && i < |out| && out[0] != ".."
    ensures Plain(out[i])
  {
    if i > 0 { ShapedPlain(out, i - 1); }
  }

  lemma DotDotHead(segs: Path)
    requires segs != [] && segs[0] == ".."
    ensures Join(segs) == ".." || "../" <= Join(segs)
  {
    if |segs| > 1 {
      JoinConcat([".."], segs[1..]);
      assert [".."] + segs[1..] == segs;
    }
  }

  lemma PlainHead(value: string)
    requires forall x :: x in Split(value) ==> Plain(x)
    ensures value != "" && value != "." && value != ".." && !("/" <= value) && !("../" <= value)
  {
    SplitWhole("");
    SplitWhole(".");
    SplitWhole("..");
    SlashPrefix("..", value);
    assert Plain(Split(value)[0]);
  }

  /** Clean relative names are exactly those without backslash whose slash-separated segments are never
      empty, `.` or `..`. */
  lemma CleanNamesExact(value: string)
    ensures CleanNames(value) <==> '\\' !in value && forall x :: x in Split(value) ==> Plain(x)
  {
    var segs := Split(value);
    JoinSplit(value);
    if CleanNames(value) {
      var out := Resolve(segs, false, []);
      ResolveShaped(segs, []);
      SplitJoin(out);
      if out[0] == ".." { DotDotHead(out); }
      forall x | x in segs ensures Plain(x) {
        var i :| 0 <= i < |out| && out[i] == x;
        ShapedPlain(out, i);
      }
    }
    if '\\' !in value && forall x :: x in segs ==> Plain(x) {
      PlainHead(value);
      ResolvePlain(segs, []);
      assert [] + segs == segs;
    }
  }

  /** cleanRelativePath accepts exactly the strings without backslash or NUL whose slash-separated
      segments are never empty, `.` or `..`. */
  lemma CleanRelativeExact(value: string)
    ensures CleanRelative(value) <==>
            '\\' !in value && '\0' !in value && forall x :: x in Split(value) ==> Plain(x)
  {
    CleanNamesExact(value);
  }

  // ----- aliasing -----

  ghost predicate AliasFree(names: set<string>) {
    forall p, q :: p in names && q in names && p != q ==> !PathWithin(p, q)
  }

  ghost predicate PrefixClosed(tree: set<Path>) {
    forall t, i :: t in tree && 0 <= i <= |t| ==> t[..i] in tree
  }

  ghost predicate LeafOf(p: Path, tree: set<Path>) {
    p in tree && forall t :: t in tree && p <= t ==> t == p
  }

  ghost predicate LeavesOfOneTree(names: set<string>) {
    exists tree: set<Path> :: PrefixClosed(tree) && forall p :: p in names ==> LeafOf(Split(p), tree)
  }

  lemma WithinIffPrefix(p: string, q: string)
    requires CleanRelative(p)
    ensures PathWithin(p, q) <==> Split(p) <= Split(q)
  {
    SlashPrefix(p, q);
  }

  lemma ReservedIffPrefix(p: string)
    ensures Reserved(p) <==> [STAGING] <= Split(p)
  {
    SplitWhole(STAGING);
    SlashPrefix(STAGING, p);
  }

  /** The tree of all ancestors of the given paths. */
  function Ancestors(names: set<string>): set<Path> {
    set p, i | p in names && 0 <= i <= |Split(p)| :: Split(p)[..i]
  }

  lemma AncestorsClosed(names: set<string>)
    ensures PrefixClosed(Ancestors(names))
  {
    forall t, j | t in Ancestors(names) && 0 <= j <= |t| ensures t[..j] in Ancestors(names) {
      var p, i :| p in names && 0 <= i <= |Split(p)| && t == Split(p)[..i];
      assert t[..j] == Split(p)[..j];
    }
  }

  lemma AncestorLeaf(names: set<string>, p: string)
    requires p in names && forall q :: q in names && Split(p) <= Split(q) ==> p == q
    ensures LeafOf(Split(p), Ancestors(names))
  {
    assert Split(p) == Split(p)[..|Split(p)|];
    forall t | t in Ancestors(names) && Split(p) <= t ensures t == Split(p) {
      var q, i :| q in names && 0 <= i <= |Split(q)| && t == Split(q)[..i];
      assert Split(p) <= Split(q);
    }
  }

  lemma WithinOnSegments(names: set<string>)
    requires forall p :: p in names ==> CleanRelative(p)
    ensures forall p, q :: p in names && q in names ==>
      (PathWithin(p, q) <==> Split(p) <= Split(q)) && (Split(p) == Split(q) ==> p == q)
  {
    hide CleanRelative, PathWithin, Split;
    forall p, q | p in names && q in names
      ensures PathWithin(p, q) <==> Split(p) <= Split(q)
      ensures Split(p) == Split(q) ==> p == q
    {
      WithinIffPrefix(p, q);
      JoinSplit(p);
      JoinSplit(q);
    }
  }

  lemma FreeMakesTree(names: set<string>)
    requires forall p, q :: p in names && q in names && Split(p) <= Split(q) ==> p == q
    ensures LeavesOfOneTree(names)
  {
    hide Split, Ancestors, PrefixClosed, LeafOf;
    var tree := Ancestors(names);
    AncestorsClosed(names);
    forall p | p in names ensures LeafOf(Split(p), tree) { AncestorLeaf(names, p); }
  }

  lemma TreeMakesFree(names: set<string>, p: string, q: string)
    requires LeavesOfOneTree(names) && p in names && q in names && Split(p) <= Split(q)
    ensures Split(p) == Split(q)
  {
    hide Split, PrefixClosed;
    var tree: set<Path> :| PrefixClosed(tree) && forall p :: p in names ==> LeafOf(Split(p), tree);
    assert LeafOf(Split(p), tree) && LeafOf(Split(q), tree);
  }

  /** On clean paths the alias check accepts exactly when all paths can be leaves of one tree. */
  lemma AliasFreeIffLeaves(names: set<string>)
    requires forall p :: p in names ==> CleanRelative(p)
    ensures AliasFree(names) <==> LeavesOfOneTree(names)
  {
    WithinOnSegments(names);
    hide CleanRelative, PathWithin, Split, LeavesOfOneTree;
    if AliasFree(names) { FreeMakesTree(names); }
    if LeavesOfOneTree(names) {
      forall p, q | p in names && q in names && p != q ensures !PathWithin(p, q) {
        if PathWithin(p, q) { TreeMakesFree(names, p, q); }
      }
    }
  }

  ghost predicate Related(p: string, q: string) { PathWithin(p, q) || PathWithin(q, p) }

  lemma PairwiseAliasFree(names: seq<string>, keys: set<string>)
    requires forall x :: x in names <==> x in keys
    requires forall a, b :: 0 <= a < b < |names| ==> !Related(names[a], names[b])
    ensures AliasFree(keys)
  {
    forall p, q | p in keys && q in keys && p != q ensures !PathWithin(p, q) {
      assert p in names && q in names;
      var a :| 0 <= a < |names| && names[a] == p;
      var b :| 0 <= b < |names| && names[b] == q;
      assert !Related(names[if a < b then a else b], names[if a < b then b else a]);
    }
  }

  /** The keys of a map as a slice, in any order a range loop may produce them. */
  method Keys(keys: set<string>) returns (names: seq<string>)
    ensures forall x :: x in names <==> x in keys
    ensures Distinct(names, Id)
  {
    names := [];
    var rest := keys;
    while rest != {}
      invariant rest <= keys
      invariant forall x :: x in names <==> x in keys && x !in rest
      invariant Distinct(names, Id)
      decreases |rest|
    {
      var name :| name in rest;
      names, rest := names + [name], rest - {name};
    }
  }

  method SortedKeys(keys: set<string>) returns (names: seq<string>)
    ensures forall x :: x in names <==> x in keys
    ensures Distinct(names, Id) && Sorted(names, Id)
  {
    var unsorted := Keys(keys);
    SortByCanonical(unsorted, unsorted, Id);
    SortBySorted(unsorted, Id);
    PermutationMembers(unsorted, SortBy(unsorted, Id));
    names := SortBy(unsorted, Id);
  }

  /** rejectPathAliases. */
  method RejectPathAliases(paths: map<string, string>) returns (ok: bool)
    ensures ok <==> AliasFree(paths.Keys)
  {
    var names := SortedKeys(paths.Keys);
    for i := 0 to |names|
      invariant forall a, b :: 0 <= a < i && a < b < |names| ==> !Related(names[a], names[b])
    {
      for j := i + 1 to |names|
        invariant forall b :: i < b < j ==> !Related(names[i], names[b])
      {
        if PathWithin(names[i], names[j]) || PathWithin(names[j], names[i]) {
          assert names[i] in paths.Keys && names[j] in paths.Keys;
          assert Id(names[i]) != Id(names[j]);
          return false;
        }
      }
    }
    PairwiseAliasFree(names, paths.Keys);
    return true;
  }
}
