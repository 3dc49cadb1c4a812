/** The stable library sort, as a function, with the laws its callers rely on. */
module Sorting {
  import opened Text

  ghost predicate TotalPreorder<T(!new)>(le: (T, T) -> bool) {
    && (forall x, y :: le(x, y) || le(y, x))
    && (forall x, y, z :: le(x, y) && le(y, z) ==> le(x, z))
  }

  ghost predicate Sorted<T>(le: (T, T) -> bool, s: seq<T>) {
    forall i, j :: 0 <= i < j < |s| ==> le(s[i], s[j])
  }

  function Insert<T>(le: (T, T) -> bool, x: T, s: seq<T>): (r: seq<T>)
    ensures multiset(r) == multiset(s) + multiset{x}
  {
    if s == [] || le(x, s[0]) then
      [x] + s
    else
      assert s == [s[0]] + s[1..];
      [s[0]] + Insert(le, x, s[1..])
  }

  /** `sort_by`: stable, so equal elements keep their order. */
  function Sort<T>(le: (T, T) -> bool, s: seq<T>): (r: seq<T>)
    ensures multiset(r) == multiset(s)
    ensures |r| == |s|
  {
    if s == [] then []
    else
      assert s == [s[0]] + s[1..];
      var r := Insert(le, s[0], Sort(le, s[1..]));
      SameSize(r, s);
      r
  }

  lemma SameSize<T>(a: seq<T>, b: seq<T>)
    requires multiset(a) == multiset(b)
    ensures |a| == |b|
  {
    assert |multiset(a)| == |a|;
  }

  lemma SameElements<T>(a: seq<T>, b: seq<T>)
    requires multiset(a) == multiset(b)
    ensures forall x :: x in a <==> x in b
  {
    forall x ensures x in a <==> x in b {
      assert x in a <==> x in multiset(a);
      assert x in b <==> x in multiset(b);
    }
  }

  lemma {:induction false} CountWhenDistinct<T>(s: seq<T>, x: T)
    requires forall i, j :: 0 <= i < j < |s| ==> s[i] != s[j]
    ensures multiset(s)[x] <= 1
  {
    if s != [] {
      assert s == [s[0]] + s[1..];
      CountWhenDistinct(s[1..], x);
      if x == s[0] { assert x !in s[1..]; }
    }
  }

  /** Rearranging a list without repetitions introduces none. */
  lemma DistinctAfterPermutation<T>(a: seq<T>, b: seq<T>)
    requires multiset(a) == multiset(b)
    requires forall i, j :: 0 <= i < j < |a| ==> a[i] != a[j]
    ensures forall i, j :: 0 <= i < j < |b| ==> b[i] != b[j]
  {
    forall i, j | 0 <= i < j < |b| ensures b[i] != b[j] {
      CountWhenDistinct(a, b[j]);
      assert b == b[..j] + [b[j]] + b[j + 1..];
      assert b[i] in b[..j] by { assert b[..j][i] == b[i]; }
      assert multiset(b)[b[j]] == multiset(b[..j])[b[j]] + 1 + multiset(b[j + 1..])[b[j]];
    }
  }

  lemma {:induction false} InsertSorted<T(!new)>(le: (T, T) -> bool, x: T, s: seq<T>)
    requires TotalPreorder(le) && Sorted(le, s)
    ensures Sorted(le, Insert(le, x, s))
  {
    var r := Insert(le, x, s);
    if s != [] && !le(x, s[0]) {
      InsertSorted(le, x, s[1..]);
      var tail := Insert(le, x, s[1..]);
      SameElements(tail, s[1..] + [x]);
      forall y | y in tail ensures le(s[0], y) {
        assert y in s[1..] + [x];
      }
    } else {
      forall j | 0 <= j < |s| ensures le(x, s[j]) {
        assert j == 0 || le(s[0], s[j]);
      }
    }
  }

  lemma {:induction false} SortSorts<T(!new)>(le: (T, T) -> bool, s: seq<T>)
    requires TotalPreorder(le)
    ensures Sorted(le, Sort(le, s))
  {
    if s != [] {
      SortSorts(le, s[1..]);
      InsertSorted(le, s[0], Sort(le, s[1..]));
    }
  }

  lemma SortedHeads<T(!new)>(le: (T, T) -> bool, a: seq<T>, b: seq<T>)
    requires Sorted(le, a) && Sorted(le, b)
    requires a != [] && b != [] && a[0] in b && b[0] in a
    requires forall x, y :: x in a && y in a && le(x, y) && le(y, x) ==> x == y
    ensures a[0] == b[0]
  {
    var i :| 0 <= i < |b| && b[i] == a[0];
    var j :| 0 <= j < |a| && a[j] == b[0];
    if i > 0 && j > 0 {
      assert le(a[0], a[j]) && le(b[0], b[i]);
    }
  }

  /** No two different elements tie. */
  ghost predicate NoTies<T(!new)>(le: (T, T) -> bool, s: seq<T>) {
    forall x, y :: x in s && y in s && le(x, y) && le(y, x) ==> x == y
  }

  lemma Tails<T(!new)>(le: (T, T) -> bool, s: seq<T>)
    requires s != [] && Sorted(le, s) && NoTies(le, s)
    ensures Sorted(le, s[1..]) && NoTies(le, s[1..])
    ensures multiset(s[1..]) == multiset(s) - multiset{s[0]} && s == [s[0]] + s[1..]
  {
    assert s == [s[0]] + s[1..];
  }

  /** Two sorted arrangements of the same elements are equal when no two different
      elements tie. */
  lemma {:induction false} SortedUnique<T(!new)>(le: (T, T) -> bool, a: seq<T>, b: seq<T>)
    requires Sorted(le, a) && Sorted(le, b)
    requires multiset(a) == multiset(b)
    requires NoTies(le, a) && NoTies(le, b)
    ensures a == b
  {
    SameSize(a, b);
    if a != [] {
      SameElements(a, b);
      assert a[0] in b && b[0] in a;
      SortedHeads(le, a, b);
      Tails(le, a);
      Tails(le, b);
      hide Sorted, NoTies;
      SortedUnique(le, a[1..], b[1..]);
    }
  }

  /** `Sort` does not depend on the input order when no two different elements tie. */
  lemma SortOfPermutation<T(!new)>(le: (T, T) -> bool, a: seq<T>, b: seq<T>)
    requires TotalPreorder(le)
    requires multiset(a) == multiset(b)
    requires forall x, y :: x in a && y in a && le(x, y) && le(y, x) ==> x == y
    ensures Sort(le, a) == Sort(le, b)
  {
    SortSorts(le, a);
    SortSorts(le, b);
    SameElements(a, Sort(le, a));
    SameElements(a, Sort(le, b));
    assert NoTies(le, Sort(le, a)) && NoTies(le, Sort(le, b));
    hide Sort;
    SortedUnique(le, Sort(le, a), Sort(le, b));
  }

  function Filter<T>(p: T -> bool, s: seq<T>): (r: seq<T>) {
    if s == [] then []
    else if p(s[0]) then [s[0]] + Filter(p, s[1..])
    else Filter(p, s[1..])
  }

  lemma {:induction false} InsertStable<T>(le: (T, T) -> bool, p: T -> bool, x: T, s: seq<T>)
    requires forall y :: y in s && p(x) && p(y) ==> le(x, y)
    ensures Filter(p, Insert(le, x, s)) == Filter(p, [x] + s)
  {
    if s != [] && !le(x, s[0]) {
      InsertStable(le, p, x, s[1..]);
      var r := [s[0]] + Insert(le, x, s[1..]);
      assert r[1..] == Insert(le, x, s[1..]);
      assert ([x] + s)[1..] == s && ([x] + s[1..])[1..] == s[1..];
    }
  }

  /** Elements that tie keep their order. */
  lemma {:induction false} SortStable<T(!new)>(le: (T, T) -> bool, p: T -> bool, s: seq<T>)
    requires forall x, y :: p(x) && p(y) ==> le(x, y)
    ensures Filter(p, Sort(le, s)) == Filter(p, s)
  {
    if s != [] {
      SortStable(le, p, s[1..]);
      InsertStable(le, p, s[0], Sort(le, s[1..]));
      assert ([s[0]] + Sort(le, s[1..]))[1..] == Sort(le, s[1..]);
    }
  }

  /** Byte-wise lexicographic order, the order of Rust strings. */
  predicate Leq(a: Str, b: Str) {
    a == [] || (b != [] && (a[0] < b[0] || (a[0] == b[0] && Leq(a[1..], b[1..]))))
  }

  lemma {:induction false} LeqTotal(a: Str, b: Str)
    ensures Leq(a, b) || Leq(b, a)
  {
    if a != [] && b != [] { LeqTotal(a[1..], b[1..]); }
  }

  lemma {:induction false} LeqTransitive(a: Str, b: Str, c: Str)
    requires Leq(a, b) && Leq(b, c)
    ensures Leq(a, c)
  {
    if a != [] && a[0] == b[0] == c[0] { LeqTransitive(a[1..], b[1..], c[1..]); }
  }

  lemma {:induction false} LeqAntisymmetric(a: Str, b: Str)
    requires Leq(a, b) && Leq(b, a)
    ensures a == b
  {
    if a != [] {
      LeqAntisymmetric(a[1..], b[1..]);
      assert a == [a[0]] + a[1..] && b == [b[0]] + b[1..];
    }
  }

  lemma LeqIsTotalPreorder()
    ensures TotalPreorder(Leq)
  {
    forall x, y ensures Leq(x, y) || Leq(y, x) { LeqTotal(x, y); }
    forall x, y, z | Leq(x, y) && Leq(y, z) ensures Leq(x, z) { LeqTransitive(x, y, z); }
  }

  /** `dedup` on a sorted list: drop each element equal to its predecessor. */
  function Dedup<T(==,!new)>(s: seq<T>): (r: seq<T>)
    ensures |r| <= |s|
    ensures forall x :: x in r <==> x in s
    ensures s != [] ==> r != [] && r[0] == s[0]
  {
    if |s| <= 1 then s
    else
      assert s == [s[0]] + s[1..];
      var rest := Dedup(s[1..]);
      if s[0] == s[1] then rest else [s[0]] + rest
  }

  /** `sort` then `dedup` on strings. */
  function SortDedup(s: seq<Str>): seq<Str> {
    Dedup(Sort(Leq, s))
  }

  lemma {:induction false} DedupStrict(s: seq<Str>)
    requires Sorted(Leq, s)
    ensures Sorted(Leq, Dedup(s))
    ensures forall i, j :: 0 <= i < j < |Dedup(s)| ==> Dedup(s)[i] != Dedup(s)[j]
  {
    if |s| > 1 {
      DedupStrict(s[1..]);
      var rest := Dedup(s[1..]);
      if s[0] != s[1] {
        forall x | x in rest ensures Leq(s[0], x) && x != s[0] {
          assert x in s[1..];
          var k :| 0 <= k < |s[1..]| && s[1..][k] == x;
          assert Leq(s[0], s[k + 1]);
          assert Leq(s[1], s[k + 1]) by { if k == 0 { LeqTotal(s[1], s[1]); } }
          if x == s[0] { LeqAntisymmetric(s[0], s[1]); }
        }
      }
    }
  }

  /** A sorted, repetition-free list of strings is determined by its set of elements. */
  lemma {:induction false} StrictUnique(a: seq<Str>, b: seq<Str>)
    requires Sorted(Leq, a) && Sorted(Leq, b)
    requires forall i, j :: 0 <= i < j < |a| ==> a[i] != a[j]
    requires forall i, j :: 0 <= i < j < |b| ==> b[i] != b[j]
    requires forall x :: x in a <==> x in b
    ensures a == b
  {
    assert a != [] ==> a[0] in a;
    assert b != [] ==> b[0] in b;
    if a != [] {
      assert a[0] in b && b[0] in a;
      var i :| 0 <= i < |b| && b[i] == a[0];
      var j :| 0 <= j < |a| && a[j] == b[0];
      LeqTotal(a[0], a[0]);
      assert Leq(a[0], b[0]) && Leq(b[0], a[0]);
      LeqAntisymmetric(a[0], b[0]);
      forall x ensures x in a[1..] <==> x in b[1..] {
        assert a == [a[0]] + a[1..] && b == [b[0]] + b[1..];
        if x in a[1..] { assert x in a; assert x != a[0]; assert x in b; }
        if x in b[1..] { assert x in b; assert x != b[0]; assert x in a; }
      }
      StrictUnique(a[1..], b[1..]);
      assert a == [a[0]] + a[1..] && b == [b[0]] + b[1..];
    }
  }

  /** Sorting and deduplicating keeps exactly the set of elements. */
  lemma SortDedupCanonical(a: seq<Str>, b: seq<Str>)
    ensures SortDedup(a) == SortDedup(b) <==> (forall x :: x in a <==> x in b)
  {
    LeqIsTotalPreorder();
    SortSorts(Leq, a);
    SortSorts(Leq, b);
    SameElements(a, Sort(Leq, a));
    SameElements(b, Sort(Leq, b));
    DedupStrict(Sort(Leq, a));
    DedupStrict(Sort(Leq, b));
    if SortDedup(a) == SortDedup(b) {
      forall x ensures x in a <==> x in b {
        assert x in a <==> x in SortDedup(a);
        assert x in b <==> x in SortDedup(b);
      }
    } else if forall x :: x in a <==> x in b {
      forall x ensures x in SortDedup(a) <==> x in SortDedup(b) {
        assert x in a <==> x in SortDedup(a);
        assert x in b <==> x in SortDedup(b);
      }
      StrictUnique(SortDedup(a), SortDedup(b));
    }
  }

  lemma {:induction false} SortOfSorted<T>(le: (T, T) -> bool, s: seq<T>)
    requires Sorted(le, s)
    ensures Sort(le, s) == s
  {
    if s != [] {
      assert s == [s[0]] + s[1..];
      SortOfSorted(le, s[1..]);
      assert s[1..] == [] || le(s[0], s[1..][0]);
    }
  }

  // ---- the keys of a map, in order ----

  /** Strictly increasing. */
  ghost predicate Ascending(s: seq<Str>) {
    Sorted(Leq, s) && forall i, j :: 0 <= i < j < |s| ==> s[i] != s[j]
  }

  ghost predicate Enumerates(s: seq<Str>, keys: set<Str>) {
    Ascending(s) && forall x :: x in s <==> x in keys
  }

  /** How a `BTreeMap` iterates its keys. */
  ghost function OrderedKeys(keys: set<Str>): (r: seq<Str>)
    ensures Enumerates(r, keys)
  {
    if keys == {} then [] else
      var k :| k in keys;
      var rest := OrderedKeys(keys - {k});
      assert Enumerates(Insert(Leq, k, rest), keys) by { InsertEnumerates(k, rest, keys - {k}); }
      Insert(Leq, k, rest)
  }

  lemma InsertEnumerates(k: Str, rest: seq<Str>, keys: set<Str>)
    requires Enumerates(rest, keys) && k !in keys
    ensures Enumerates(Insert(Leq, k, rest), keys + {k})
  {
    LeqIsTotalPreorder();
    InsertSorted(Leq, k, rest);
    var r := Insert(Leq, k, rest);
    assert multiset([k] + rest) == multiset(r);
    SameElements([k] + rest, r);
    DistinctAfterPermutation([k] + rest, r);
  }

  lemma OrderedKeysUnique(s: seq<Str>, keys: set<Str>)
    requires Enumerates(s, keys)
    ensures s == OrderedKeys(keys)
  {
    StrictUnique(s, OrderedKeys(keys));
  }

  /** A hash map yields its keys in no particular order; sorting them leaves only one. */
  method SortedKeys(keys: set<Str>) returns (r: seq<Str>)
    ensures r == OrderedKeys(keys)
  {
    var listed := Listing(keys);
    r := Sort(Leq, listed);
    LeqIsTotalPreorder();
    SortSorts(Leq, listed);
    SameElements(listed, r);
    DistinctAfterPermutation(listed, r);
    OrderedKeysUnique(r, keys);
  }

  /** Hash order: any order. */
  method Listing<K(==)>(keys: set<K>) returns (listed: seq<K>)
    ensures forall x :: x in listed <==> x in keys
    ensures forall i, j :: 0 <= i < j < |listed| ==> listed[i] != listed[j]
  {
    var left := keys;
    listed := [];
    while left != {}
      invariant left <= keys
      invariant forall x :: x in listed <==> x in keys - left
      invariant forall i, j :: 0 <= i < j < |listed| ==> listed[i] != listed[j]
      decreases |left|
    {
      var k :| k in left;
      left := left - {k};
      assert k !in listed;
      listed := listed + [k];
    }
  }
}
