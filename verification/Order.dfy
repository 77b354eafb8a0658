/** Byte-wise string order and key-sorted sequences.
    Go's sort.Slice promises only some sorted permutation. `SortBy` is one such permutation, and
    `SortedUnique` shows that with distinct keys there is no other.
  */
module Order {

  predicate StrLe(a: string, b: string) {
    a == [] || (b != [] && (a[0] < b[0] || (a[0] == b[0] && StrLe(a[1..], b[1..]))))
  }

  ghost predicate Sorted<T(!new)>(s: seq<T>, key: T -> string) {
    forall i, j :: 0 <= i < j < |s| ==> StrLe(key(s[i]), key(s[j]))
  }

  ghost predicate Distinct<T(!new)>(s: seq<T>, key: T -> string) {
    forall i, j :: 0 <= i < j < |s| ==> key(s[i]) != key(s[j])
  }

  /** The keys of a sequence: what a `seen` map has collected. */
  function KeySet<T>(s: seq<T>, key: T -> string): set<string> {
    set i | 0 <= i < |s| :: key(s[i])
  }

  function Insert<T>(x: T, s: seq<T>, key: T -> string): (r: seq<T>)
    ensures multiset(r) == multiset{x} + multiset(s)
    ensures |r| == |s| + 1
  {
    if s == [] || StrLe(key(x), key(s[0])) then
      [x] + s
    else
      assert s == [s[0]] + s[1..];
      [s[0]] + Insert(x, s[1..], key)
  }

  function SortBy<T>(s: seq<T>, key: T -> string): (r: seq<T>)
    ensures multiset(r) == multiset(s)
    ensures |r| == |s|
  {
    if s == [] then []
    else
      assert s == [s[0]] + s[1..];
      Insert(s[0], SortBy(s[1..], key), key)
  }

  function Id(s: string): string { s }

  lemma {:induction false} StrLeTotal(a: string, b: string)
    ensures StrLe(a, b) || StrLe(b, a)
  {
    if a != [] && b != [] { StrLeTotal(a[1..], b[1..]); }
  }

  lemma {:induction false} StrLeAntisymmetric(a: string, b: string)
    requires StrLe(a, b) && StrLe(b, a)
    ensures a == b
  {
    if a != [] && b != [] {
      StrLeAntisymmetric(a[1..], b[1..]);
      assert a == [a[0]] + a[1..] && b == [b[0]] + b[1..];
    }
  }

  lemma {:induction false} StrLeTransitive(a: string, b: string, c: string)
    requires StrLe(a, b) && StrLe(b, c)
    ensures StrLe(a, c)
  {
    if a != [] && a[0] == b[0] == c[0] { StrLeTransitive(a[1..], b[1..], c[1..]); }
  }

  lemma KeyIn<T>(s: seq<T>, x: T, key: T -> string)
    requires x in s
    ensures key(x) in KeySet(s, key)
  {
    var i :| 0 <= i < |s| && s[i] == x;
  }

  lemma KeyFrom<T>(s: seq<T>, k: string, key: T -> string) returns (x: T)
    requires k in KeySet(s, key)
    ensures x in s && key(x) == k
  {
    var i :| 0 <= i < |s| && key(s[i]) == k;
    x := s[i];
  }

  lemma KeySetSnoc<T>(s: seq<T>, x: T, key: T -> string)
    ensures KeySet(s + [x], key) == KeySet(s, key) + {key(x)}
  {
    var t := s + [x];
    forall k | k in KeySet(s, key) ensures k in KeySet(t, key) {
      var i :| 0 <= i < |s| && key(s[i]) == k;
      assert t[i] == s[i];
    }
    assert t[|s|] == x;
  }

  lemma DistinctSnoc<T(!new)>(s: seq<T>, x: T, key: T -> string)
    ensures Distinct(s + [x], key) <==> Distinct(s, key) && key(x) !in KeySet(s, key)
  {
    var t := s + [x];
    assert forall i :: 0 <= i < |s| ==> t[i] == s[i];
    assert t[|s|] == x;
  }

  /** Distinct keys are exactly those the key set counts in full. */
  lemma KeySetConcat<T>(a: seq<T>, b: seq<T>, key: T -> string)
    ensures KeySet(a + b, key) == KeySet(a, key) + KeySet(b, key)
  {
    hide KeySet;
    forall k ensures k in KeySet(a + b, key) <==> k in KeySet(a, key) + KeySet(b, key) {
      if k in KeySet(a + b, key) {
        var x := KeyFrom(a + b, k, key);
        if x in a { KeyIn(a, x, key); } else { KeyIn(b, x, key); }
      }
      if k in KeySet(a, key) { var x := KeyFrom(a, k, key); KeyIn(a + b, x, key); }
      if k in KeySet(b, key) { var x := KeyFrom(b, k, key); KeyIn(a + b, x, key); }
    }
  }

  lemma DistinctConcat<T(!new)>(a: seq<T>, b: seq<T>, key: T -> string)
    ensures Distinct(a + b, key) <==> Distinct(a, key) && Distinct(b, key) && KeySet(a, key) !! KeySet(b, key)
  {
    hide KeySet;
    if Distinct(a + b, key) {
      assert forall i :: 0 <= i < |a| ==> (a + b)[i] == a[i];
      forall i, j | 0 <= i < j < |b| ensures key(b[i]) != key(b[j]) {
        assert (a + b)[|a| + i] == b[i] && (a + b)[|a| + j] == b[j];
      }
      forall i, j | 0 <= i < |a| && 0 <= j < |b| ensures key(a[i]) != key(b[j]) {
        assert (a + b)[i] == a[i] && (a + b)[|a| + j] == b[j];
      }
      forall k | k in KeySet(a, key) ensures k !in KeySet(b, key) {
        var x := KeyFrom(a, k, key);
        forall y | y in b ensures key(y) != k { }
        if k in KeySet(b, key) { var y := KeyFrom(b, k, key); }
      }
    } else if Distinct(a, key) && Distinct(b, key) && KeySet(a, key) !! KeySet(b, key) {
      forall i, j | 0 <= i < j < |a + b| ensures key((a + b)[i]) != key((a + b)[j]) {
        if i < |a| <= j {
          KeyIn(a, a[i], key);
          KeyIn(b, b[j - |a|], key);
        }
      }
    }
  }

  lemma {:induction false} CountDistinct<T(!new)>(s: seq<T>, key: T -> string)
    ensures |KeySet(s, key)| <= |s|
    ensures |KeySet(s, key)| == |s| <==> Distinct(s, key)
  {
    if s == [] {
      assert KeySet(s, key) == {};
    } else {
      var front, last := s[..|s| - 1], s[|s| - 1];
      assert s == front + [last];
      CountDistinct(front, key);
      KeySetSnoc(front, last, key);
      DistinctSnoc(front, last, key);
    }
  }

  lemma DistinctPrefix<T(!new)>(s: seq<T>, n: nat, key: T -> string)
    requires n <= |s| && Distinct(s, key)
    ensures Distinct(s[..n], key)
  {
  }

  lemma InSeq<T>(s: seq<T>, x: T)
    ensures x in s <==> x in multiset(s)
  {
  }

  lemma {:induction false} InsertSorted<T(!new)>(x: T, s: seq<T>, key: T -> string)
    requires Sorted(s, key)
    ensures Sorted(Insert(x, s, key), key)
  {
    if s == [] {
    } else if StrLe(key(x), key(s[0])) {
      forall j | 0 <= j < |s| ensures StrLe(key(x), key(s[j])) {
        if j > 0 { StrLeTransitive(key(x), key(s[0]), key(s[j])); }
      }
    } else {
      var tail := Insert(x, s[1..], key);
      InsertSorted(x, s[1..], key);
      StrLeTotal(key(x), key(s[0]));
      forall j | 0 <= j < |tail| ensures StrLe(key(s[0]), key(tail[j])) {
        InSeq(tail, tail[j]);
        assert tail[j] == x || tail[j] in s[1..];
      }
    }
  }

  lemma {:induction false} SortBySorted<T(!new)>(s: seq<T>, key: T -> string)
    ensures Sorted(SortBy(s, key), key)
  {
    if s != [] {
      SortBySorted(s[1..], key);
      InsertSorted(s[0], SortBy(s[1..], key), key);
    }
  }

  /** Membership survives reordering. */
  lemma PermutationMembers<T>(a: seq<T>, b: seq<T>)
    requires multiset(a) == multiset(b)
    ensures |a| == |b|
    ensures forall x :: x in a <==> x in b
  {
    assert |multiset(a)| == |a| && |multiset(b)| == |b|;
    forall x ensures x in a <==> x in b { InSeq(a, x); InSeq(b, x); }
  }

  /** Two different positions with one key show up as two different positions in any reordering. */
  lemma PermutationDistinct<T(!new)>(a: seq<T>, b: seq<T>, key: T -> string)
    requires multiset(a) == multiset(b) && Distinct(a, key)
    ensures Distinct(b, key)
  {
    PermutationMembers(a, b);
    forall i, j | 0 <= i < j < |b| ensures key(b[i]) != key(b[j]) {
      if b[i] == b[j] {
        Multiplicity(b, i, j);
        AtMostOnce(a, b[i], key);
      } else {
        assert b[i] in b && b[j] in b;
        var m :| 0 <= m < |a| && a[m] == b[i];
        var n :| 0 <= n < |a| && a[n] == b[j];
      }
    }
  }

  lemma Multiplicity<T>(s: seq<T>, i: nat, j: nat)
    requires i < j < |s| && s[i] == s[j]
    ensures multiset(s)[s[i]] >= 2
  {
    assert s == s[..j] + s[j..];
    InSeq(s[..j], s[..j][i]);
    InSeq(s[j..], s[j..][0]);
  }

  lemma {:induction false} AtMostOnce<T(!new)>(s: seq<T>, x: T, key: T -> string)
    requires Distinct(s, key)
    ensures multiset(s)[x] <= 1
  {
    if s != [] {
      assert s == [s[0]] + s[1..];
      AtMostOnce(s[1..], x, key);
      if s[0] == x {
        InSeq(s[1..], x);
        assert x !in s[1..] by {
          assert forall k :: 1 <= k < |s| ==> key(s[k]) != key(s[0]);
        }
      }
    }
  }

  lemma SameHead<T(!new)>(a: seq<T>, b: seq<T>, key: T -> string)
    requires Sorted(a, key) && Sorted(b, key) && Distinct(a, key)
    requires multiset(a) == multiset(b) && a != [] && b != []
    ensures a[0] == b[0]
  {
    PermutationMembers(a, b);
    assert a[0] in b && b[0] in a;
    var j :| 0 <= j < |b| && b[j] == a[0];
    var i :| 0 <= i < |a| && a[i] == b[0];
    if i != 0 && j != 0 { StrLeAntisymmetric(key(a[0]), key(b[0])); }
  }

  /** With distinct keys, equal members mean equal contents. */
  lemma DistinctSameMembers<T(!new)>(a: seq<T>, b: seq<T>, key: T -> string)
    requires Distinct(a, key) && Distinct(b, key)
    requires forall x :: x in a <==> x in b
    ensures multiset(a) == multiset(b)
  {
    forall x ensures multiset(a)[x] == multiset(b)[x] {
      AtMostOnce(a, x, key);
      AtMostOnce(b, x, key);
      InSeq(a, x);
      InSeq(b, x);
    }
  }

  lemma PermutationKeys<T>(a: seq<T>, b: seq<T>, key: T -> string)
    requires multiset(a) == multiset(b)
    ensures KeySet(a, key) == KeySet(b, key)
  {
    PermutationMembers(a, b);
    forall k ensures k in KeySet(a, key) <==> k in KeySet(b, key) {
      if k in KeySet(a, key) {
        var i :| 0 <= i < |a| && key(a[i]) == k;
        assert a[i] in b;
      }
      if k in KeySet(b, key) {
        var i :| 0 <= i < |b| && key(b[i]) == k;
        assert b[i] in a;
      }
    }
  }

  lemma TailContents<T>(a: seq<T>)
    requires a != []
    ensures a == [a[0]] + a[1..] && multiset(a[1..]) == multiset(a) - multiset{a[0]}
  {
    assert a == [a[0]] + a[1..];
  }

  /** With distinct keys there is exactly one sorted permutation. */
  lemma {:induction false} SortedUnique<T(!new)>(a: seq<T>, b: seq<T>, key: T -> string)
    requires Sorted(a, key) && Sorted(b, key) && Distinct(a, key)
    requires multiset(a) == multiset(b)
    ensures a == b
  {
    hide StrLe;
    PermutationMembers(a, b);
    if a != [] {
      SameHead(a, b, key);
      TailContents(a);
      TailContents(b);
      SortedUnique(a[1..], b[1..], key);
    }
  }

  /** Sorting forgets the order it was given, provided keys are distinct. */
  lemma SortByCanonical<T(!new)>(a: seq<T>, b: seq<T>, key: T -> string)
    requires Distinct(a, key)
    ensures Distinct(SortBy(a, key), key)
    ensures SortBy(a, key) == SortBy(b, key) <==> multiset(a) == multiset(b)
  {
    SortBySorted(a, key);
    SortBySorted(b, key);
    PermutationDistinct(a, SortBy(a, key), key);
    if multiset(a) == multiset(b) { SortedUnique(SortBy(a, key), SortBy(b, key), key); }
  }

  // ----- mapping, then sorting -----

  function Map<T, U>(f: T -> U, s: seq<T>): (m: seq<U>)
    ensures |m| == |s| && forall i :: 0 <= i < |s| ==> m[i] == f(s[i])
  {
    seq(|s|, i requires 0 <= i < |s| => f(s[i]))
  }

  lemma MapConcat<T, U>(f: T -> U, a: seq<T>, b: seq<T>)
    ensures Map(f, a + b) == Map(f, a) + Map(f, b)
  {
  }

  lemma TakeOut<T>(s: seq<T>, j: nat)
    requires j < |s|
    ensures multiset(s[..j] + s[j + 1..]) == multiset(s) - multiset{s[j]}
  {
    assert s == s[..j] + ([s[j]] + s[j + 1..]);
  }

  lemma MapTakeOut<T, U>(f: T -> U, s: seq<T>, j: nat)
    requires j < |s|
    ensures multiset(Map(f, s)) == multiset(Map(f, s[..j] + s[j + 1..])) + multiset{f(s[j])}
  {
    var m := Map(f, s);
    TakeOut(m, j);
    assert Map(f, s[..j] + s[j + 1..]) == m[..j] + m[j + 1..];
    assert multiset(m) == multiset(m) - multiset{m[j]} + multiset{m[j]} by { InSeq(m, m[j]); }
  }

  /** A map keeps permutations permutations. */
  lemma {:induction false} MapMultiset<T, U>(f: T -> U, a: seq<T>, b: seq<T>)
    requires multiset(a) == multiset(b)
    ensures multiset(Map(f, a)) == multiset(Map(f, b))
  {
    hide Map;
    PermutationMembers(a, b);
    if a != [] {
      TailContents(a);
      assert a[0] in b;
      var j :| 0 <= j < |b| && b[j] == a[0];
      TakeOut(b, j);
      MapTakeOut(f, b, j);
      MapTakeOut(f, a, 0);
      assert a[..0] + a[1..] == a[1..];
      MapMultiset(f, a[1..], b[..j] + b[j + 1..]);
    }
  }

  ghost predicate Matched<T(!new), U>(f: T -> U, t: T, s: seq<T>) {
    exists u :: u in s && f(t) == f(u)
  }

  lemma MapMatched<T(!new), U>(f: T -> U, a: seq<T>, b: seq<T>)
    ensures (forall c :: c in Map(f, a) ==> c in Map(f, b)) <==> (forall t :: t in a ==> Matched(f, t, b))
  {
    var m, n := Map(f, a), Map(f, b);
    forall t | t in a ensures f(t) in m && (f(t) in n <==> Matched(f, t, b)) {
      var i :| 0 <= i < |a| && a[i] == t;
      assert m[i] == f(t);
      if f(t) in n {
        var j :| 0 <= j < |n| && n[j] == f(t);
        assert b[j] in b;
      }
      if Matched(f, t, b) {
        var u :| u in b && f(t) == f(u);
        var j :| 0 <= j < |b| && b[j] == u;
        assert n[j] == f(t);
      }
    }
    forall c | c in m ensures exists t :: t in a && f(t) == c {
      var i :| 0 <= i < |m| && m[i] == c;
      assert a[i] in a;
    }
  }

  /** Two slices map and sort to the same thing exactly when each element has a match in the other. */
  lemma MapAgree<T(!new), U(!new)>(f: T -> U, a: seq<T>, b: seq<T>, key: U -> string)
    requires Distinct(Map(f, a), key) && Distinct(Map(f, b), key)
    ensures SortBy(Map(f, a), key) == SortBy(Map(f, b), key) <==>
            (forall t :: t in a ==> Matched(f, t, b)) && (forall t :: t in b ==> Matched(f, t, a))
  {
    var m, n := Map(f, a), Map(f, b);
    SortByCanonical(m, n, key);
    MapMatched(f, a, b);
    MapMatched(f, b, a);
    if multiset(m) == multiset(n) { PermutationMembers(m, n); }
    if (forall c :: c in m ==> c in n) && (forall c :: c in n ==> c in m) { DistinctSameMembers(m, n, key); }
  }

  /** A map that keeps keys keeps them distinct. */
  lemma MapDistinct<T(!new), U(!new)>(f: T -> U, s: seq<T>, key: T -> string, keyU: U -> string)
    requires Distinct(s, key) && forall t :: t in s ==> keyU(f(t)) == key(t)
    ensures Distinct(Map(f, s), keyU)
  {
  }

  /** Sorting before or after a key-preserving map makes no difference. */
  lemma SortMap<T(!new), U(!new)>(f: T -> U, s: seq<T>, key: T -> string, keyU: U -> string)
    requires Distinct(s, key) && forall t :: t in s ==> keyU(f(t)) == key(t)
    ensures SortBy(Map(f, s), keyU) == Map(f, SortBy(s, key))
  {
    var sorted := SortBy(s, key);
    PermutationMembers(s, sorted);
    SortBySorted(s, key);
    MapMultiset(f, s, sorted);
    MapDistinct(f, s, key, keyU);
    SortByCanonical(Map(f, s), Map(f, s), keyU);
    SortBySorted(Map(f, s), keyU);
    MapSorted(f, sorted, key, keyU);
    SortedUnique(SortBy(Map(f, s), keyU), Map(f, sorted), keyU);
  }

  lemma MapSorted<T(!new), U(!new)>(f: T -> U, s: seq<T>, key: T -> string, keyU: U -> string)
    requires Sorted(s, key) && forall t :: t in s ==> keyU(f(t)) == key(t)
    ensures Sorted(Map(f, s), keyU)
  {
  }

  // ----- looking up by key -----

  /** The map a loop over the sequence fills; a later element of the same key would win. */
  function IndexBy<T>(s: seq<T>, key: T -> string): map<string, T> {
    if s == [] then map[] else IndexBy(s[..|s| - 1], key)[key(s[|s| - 1]) := s[|s| - 1]]
  }

  lemma {:induction false} IndexExact<T(!new)>(s: seq<T>, key: T -> string)
    requires Distinct(s, key)
    ensures IndexBy(s, key).Keys == KeySet(s, key)
    ensures forall t :: t in s ==> key(t) in IndexBy(s, key) && IndexBy(s, key)[key(t)] == t
    ensures forall k :: k in IndexBy(s, key) ==> IndexBy(s, key)[k] in s && key(IndexBy(s, key)[k]) == k
  {
    if s != [] {
      var front, last := s[..|s| - 1], s[|s| - 1];
      assert s == front + [last];
      DistinctSnoc(front, last, key);
      KeySetSnoc(front, last, key);
      IndexExact(front, key);
    }
  }

  lemma IndexSnoc<T>(s: seq<T>, x: T, key: T -> string)
    ensures IndexBy(s + [x], key) == IndexBy(s, key)[key(x) := x]
  {
    assert (s + [x])[..|s|] == s;
  }

  /** With distinct keys the index forgets the order. */
  lemma IndexUnique<T(!new)>(a: seq<T>, b: seq<T>, key: T -> string)
    requires Distinct(a, key) && multiset(a) == multiset(b)
    ensures IndexBy(a, key) == IndexBy(b, key)
  {
    PermutationDistinct(a, b, key);
    PermutationMembers(a, b);
    IndexExact(a, key);
    IndexExact(b, key);
  }

  method Index<T>(s: seq<T>, key: T -> string) returns (index: map<string, T>)
    ensures index == IndexBy(s, key)
  {
    index := map[];
    for i := 0 to |s|
      invariant index == IndexBy(s[..i], key)
    {
      assert s[..i + 1][..i] == s[..i];
      index := index[key(s[i]) := s[i]];
    }
    assert s[..|s|] == s;
  }
}
