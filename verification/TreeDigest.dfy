/** The canonical digest of a tree artifact: which byte string is hashed, and that it names the tree. */
module TreeDigest {
  import opened Order
  import opened Paths
  import opened Contract

  const DOMAIN := "dhnt.sha256-tree/v1\0"
  const WORD := 0x1_0000_0000_0000_0000

  type Sum = s: string | |s| == 32 witness seq(32, i => '\0')

  datatype TreeEntry = TreeEntry(path: string, digest: Sum)

  /** SHA-256, and the two Unicode tests, as parameters. */
  datatype Library = Library(sha256: string -> string, utf8: string -> bool, nfc: string -> bool)

  function EntryPath(e: TreeEntry): string { e.path }

  /** validateTreePath. */
  predicate ValidTreePath(l: Library, value: string) { l.utf8(value) && l.nfc(value) && CleanNames(value) }

  // ----- 64-bit big-endian words -----

  function Power(k: nat): nat { if k == 0 then 1 else 256 * Power(k - 1) }

  /** The last k bytes of n, most significant first. */
  function BigEndian(n: nat, k: nat): (s: string)
    ensures |s| == k
  {
    if k == 0 then "" else BigEndian(n / 256, k - 1) + [(n % 256) as char]
  }

  /** writeUint64: a length is truncated to 64 bits. */
  function Word(n: nat): (s: string)
    ensures |s| == 8
  {
    BigEndian(n % WORD, 8)
  }

  function Value(s: string): nat {
    if s == "" then 0 else 256 * Value(s[..|s| - 1]) + s[|s| - 1] as nat
  }

  lemma {:induction false} ValueOfBigEndian(n: nat, k: nat)
    requires n < Power(k)
    ensures Value(BigEndian(n, k)) == n
  {
    if k > 0 {
      var s := BigEndian(n, k);
      ValueOfBigEndian(n / 256, k - 1);
      assert s[..|s| - 1] == BigEndian(n / 256, k - 1);
    }
  }

  lemma Powers()
    ensures Power(8) == WORD
  {
    assert Power(1) == 0x100 && Power(2) == 0x1_0000 && Power(3) == 0x100_0000 && Power(4) == 0x1_0000_0000;
    assert Power(5) == 0x100_0000_0000 && Power(6) == 0x1_0000_0000_0000 && Power(7) == 0x100_0000_0000_0000;
  }

  lemma ValueOfWord(n: nat)
    requires n < WORD
    ensures Value(Word(n)) == n
  {
    Powers();
    hide Power, BigEndian, Value;
    ValueOfBigEndian(n, 8);
  }

  /** Two lengths below 2^64 share an encoding only if they are equal. */
  lemma WordInjective(a: nat, b: nat)
    requires a < WORD && b < WORD && Word(a) == Word(b)
    ensures a == b
  {
    hide Word, Value;
    ValueOfWord(a);
    ValueOfWord(b);
  }

  // ----- the encoding -----

  function Encoded(e: TreeEntry): string { Word(|e.path|) + e.path + e.digest }

  function Body(entries: seq<TreeEntry>): string {
    if entries == [] then "" else Encoded(entries[0]) + Body(entries[1..])
  }

  /** The hashed bytes of a list already in order. */
  function Encoding(entries: seq<TreeEntry>): string { DOMAIN + Word(|entries|) + Body(entries) }

  /** The bytes canonicalTreeDigest hashes. */
  function CanonicalBytes(entries: seq<TreeEntry>): string { Encoding(SortBy(entries, EntryPath)) }

  ghost predicate ValidTree(l: Library, entries: seq<TreeEntry>) {
    (forall e :: e in entries ==> ValidTreePath(l, e.path)) && Distinct(entries, EntryPath)
  }

  /** Lengths are Go lengths. */
  ghost predicate Sized(entries: seq<TreeEntry>) {
    |entries| < WORD && forall e :: e in entries ==> |e.path| < WORD
  }

  lemma {:induction false} BodySnoc(front: seq<TreeEntry>, e: TreeEntry)
    ensures Body(front + [e]) == Body(front) + Encoded(e)
  {
    hide Encoded;
    if front == [] {
      assert front + [e] == [e] && [e][1..] == [];
    } else {
      assert (front + [e])[1..] == front[1..] + [e];
      BodySnoc(front[1..], e);
    }
  }

  /** One encoded entry can be read off the front of what follows. */
  lemma EntryPrefixFree(a: TreeEntry, x: string, b: TreeEntry, y: string)
    requires |a.path| < WORD && |b.path| < WORD && Encoded(a) + x == Encoded(b) + y
    ensures a == b && x == y
  {
    hide Word;
    var l, r := Encoded(a) + x, Encoded(b) + y;
    assert l[..8] == Word(|a.path|) && r[..8] == Word(|b.path|);
    WordInjective(|a.path|, |b.path|);
    var n := 8 + |a.path|;
    assert l[8..n] == a.path && r[8..n] == b.path;
    assert l[n..n + 32] == a.digest && r[n..n + 32] == b.digest;
    assert l[n + 32..] == x && r[n + 32..] == y;
  }

  lemma {:induction false} BodyInjective(a: seq<TreeEntry>, b: seq<TreeEntry>)
    requires Sized(a) && Sized(b) && |a| == |b| && Body(a) == Body(b)
    ensures a == b
  {
    hide Encoded;
    if a != [] {
      EntryPrefixFree(a[0], Body(a[1..]), b[0], Body(b[1..]));
      BodyInjective(a[1..], b[1..]);
      assert a == [a[0]] + a[1..] && b == [b[0]] + b[1..];
    }
  }

  /** Distinct lists of entries never encode alike. */
  lemma EncodingInjective(a: seq<TreeEntry>, b: seq<TreeEntry>)
    requires Sized(a) && Sized(b)
    ensures Encoding(a) == Encoding(b) <==> a == b
  {
    hide Word, Body;
    if Encoding(a) == Encoding(b) {
      var n := |DOMAIN|;
      var l, r := Encoding(a), Encoding(b);
      assert l[n..n + 8] == Word(|a|) && r[n..n + 8] == Word(|b|);
      assert l[n + 8..] == Body(a) && r[n + 8..] == Body(b);
      WordInjective(|a|, |b|);
      BodyInjective(a, b);
    }
  }

  lemma SortedSized(entries: seq<TreeEntry>)
    requires Sized(entries)
    ensures Sized(SortBy(entries, EntryPath))
  {
    PermutationMembers(entries, SortBy(entries, EntryPath));
  }

  /** Two trees hash the same bytes exactly when they hold the same (path, digest) pairs. */
  lemma CanonicalBytesExact(l: Library, a: seq<TreeEntry>, b: seq<TreeEntry>)
    requires ValidTree(l, a) && ValidTree(l, b) && Sized(a) && Sized(b)
    ensures CanonicalBytes(a) == CanonicalBytes(b) <==> forall e :: e in a <==> e in b
  {
    hide Encoding, Sized;
    SortedSized(a);
    SortedSized(b);
    EncodingInjective(SortBy(a, EntryPath), SortBy(b, EntryPath));
    SortByCanonical(a, b, EntryPath);
    if multiset(a) == multiset(b) { PermutationMembers(a, b); }
    if forall e :: e in a <==> e in b { DistinctSameMembers(a, b, EntryPath); }
  }

  /** In a sorted list equal keys are neighbours. */
  lemma {:induction false} NeighboursDistinct(s: seq<TreeEntry>, i: nat, j: nat)
    requires Sorted(s, EntryPath) && i < j < |s| && s[i].path == s[j].path
    ensures s[j - 1].path == s[j].path
  {
    StrLeAntisymmetric(EntryPath(s[j - 1]), EntryPath(s[j])) by {
      if i < j - 1 { assert StrLe(EntryPath(s[i]), EntryPath(s[j - 1])); } else { StrLeTotal(s[i].path, s[i].path); }
    }
  }

  /** The duplicate loop over the sorted copy. */
  method NoDuplicates(s: seq<TreeEntry>) returns (ok: bool)
    requires Sorted(s, EntryPath)
    ensures ok <==> Distinct(s, EntryPath)
  {
    var i := 1;
    while i < |s|
      invariant 1 <= i && (i <= |s| ==> Distinct(s[..i], EntryPath)) && (i > |s| ==> s == [])
    {
      if s[i - 1].path == s[i].path {
        assert EntryPath(s[i - 1]) == EntryPath(s[i]);
        return false;
      }
      forall k | 0 <= k < i ensures EntryPath(s[k]) != EntryPath(s[i]) {
        if s[k].path == s[i].path { NeighboursDistinct(s, k, i); }
      }
      i := i + 1;
    }
    assert s[..|s|] == s;
    return true;
  }

  method CheckPaths(l: Library, entries: seq<TreeEntry>) returns (ok: bool)
    ensures ok <==> forall e :: e in entries ==> ValidTreePath(l, e.path)
  {
    hide ValidTreePath;
    for i := 0 to |entries|
      invariant forall k :: 0 <= k < i ==> ValidTreePath(l, entries[k].path)
    {
      if !ValidTreePath(l, entries[i].path) { return false; }
    }
    return true;
  }

  /** The writes to the hash. */
  method WriteEntries(s: seq<TreeEntry>) returns (written: string)
    ensures written == Encoding(s)
  {
    hide Word;
    written := DOMAIN + Word(|s|);
    for i := 0 to |s|
      invariant written == DOMAIN + Word(|s|) + Body(s[..i])
    {
      BodySnoc(s[..i], s[i]);
      assert s[..i + 1] == s[..i] + [s[i]];
      written := written + Word(|s[i].path|);
      written := written + s[i].path;
      written := written + s[i].digest;
    }
    assert s[..|s|] == s;
  }

  lemma SortedDistinct(entries: seq<TreeEntry>)
    ensures Sorted(SortBy(entries, EntryPath), EntryPath)
    ensures Distinct(SortBy(entries, EntryPath), EntryPath) <==> Distinct(entries, EntryPath)
  {
    SortBySorted(entries, EntryPath);
    var sorted := SortBy(entries, EntryPath);
    if Distinct(entries, EntryPath) { PermutationDistinct(entries, sorted, EntryPath); }
    if Distinct(sorted, EntryPath) { PermutationDistinct(sorted, entries, EntryPath); }
  }

  /** canonicalTreeDigest: a copy is checked, sorted, and written to the hash piece by piece. */
  method CanonicalTreeDigest(l: Library, entries: seq<TreeEntry>) returns (digest: Option<string>)
    ensures digest.Some? <==> ValidTree(l, entries)
    ensures digest.Some? ==> digest.value == l.sha256(CanonicalBytes(entries))
  {
    hide ValidTreePath, Encoding, Sorted, Distinct;
    var ok := CheckPaths(l, entries);
    if !ok { return None; }
    SortedDistinct(entries);
    var sorted := SortBy(entries, EntryPath);
    ok := NoDuplicates(sorted);
    if !ok { return None; }
    var written := WriteEntries(sorted);
    return Some(l.sha256(written));
  }
}
