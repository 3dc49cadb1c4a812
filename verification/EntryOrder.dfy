/** When the order entries arrive in shows in the root hash (crates/rc-core/src/manifest.rs). */
module EntryOrder {
  import opened Text
  import opened Sorting
  import opened Manifest

  /** Entries that repeat a path repeat everything that is hashed of it. */
  predicate OneKeyPerPath(entries: seq<FileEntry>) {
    forall i, j :: 0 <= i < j < |entries| && entries[i].path == entries[j].path ==>
      KeyOf(entries[i]) == KeyOf(entries[j])
  }

  ghost predicate Rearranged(a: seq<FileEntry>, b: seq<FileEntry>) {
    multiset(a) == multiset(b)
  }

  predicate KeyByPath(a: EntryKey, b: EntryKey) {
    Leq(a.path, b.path)
  }

  // ---- one key per path: the order is invisible ----

  lemma KeysConcat(a: seq<FileEntry>, b: seq<FileEntry>)
    ensures Keys(a + b) == Keys(a) + Keys(b)
  {
    assert forall k :: 0 <= k < |a + b| ==> Keys(a + b)[k] == (Keys(a) + Keys(b))[k];
  }

  lemma KeyOfOne(e: FileEntry)
    ensures Keys([e]) == [KeyOf(e)]
  {
    assert Keys([e])[0] == KeyOf(e);
  }

  lemma WithoutOne<T>(a: seq<T>, b: seq<T>, i: nat)
    requires a != [] && i < |b| && b[i] == a[0] && multiset(a) == multiset(b)
    ensures multiset(a[1..]) == multiset(b[..i] + b[i + 1..])
  {
    assert a == [a[0]] + a[1..];
    assert b == b[..i] + ([b[i]] + b[i + 1..]);
    assert multiset(b[..i] + b[i + 1..]) == multiset(b[..i]) + multiset(b[i + 1..]);
    forall x ensures multiset(a[1..])[x] == multiset(b[..i] + b[i + 1..])[x] {
      assert multiset(a)[x] == (if x == a[0] then 1 else 0) + multiset(a[1..])[x];
      assert multiset(b)[x] == multiset(b[..i])[x] + ((if x == b[i] then 1 else 0) + multiset(b[i + 1..])[x]);
    }
  }

  function Mapped<A, B>(f: A -> B, s: seq<A>): (r: seq<B>)
    ensures |r| == |s|
  {
    if s == [] then [] else [f(s[0])] + Mapped(f, s[1..])
  }

  lemma {:induction false} MappedConcat<A, B>(f: A -> B, a: seq<A>, b: seq<A>)
    ensures Mapped(f, a + b) == Mapped(f, a) + Mapped(f, b)
  {
    if a == [] {
      assert a + b == b;
    } else {
      MappedConcat(f, a[1..], b);
      assert (a + b)[0] == a[0] && (a + b)[1..] == a[1..] + b;
      MappedHead(f, a);
      MappedHead(f, a + b);
      hide Mapped;
    }
  }

  lemma MappedHead<A, B>(f: A -> B, s: seq<A>)
    requires s != []
    ensures Mapped(f, s) == [f(s[0])] + Mapped(f, s[1..])
  {
  }

  /** One element more is one image more, wherever it stands. */
  lemma MappedAround<A, B>(f: A -> B, s: seq<A>, i: nat)
    requires i < |s|
    ensures multiset(Mapped(f, s)) == multiset{f(s[i])} + multiset(Mapped(f, s[..i] + s[i + 1..]))
  {
    var front, back := s[..i], s[i..];
    assert s == front + back && back[0] == s[i] && back[1..] == s[i + 1..];
    MappedConcat(f, front, back);
    MappedConcat(f, front, back[1..]);
  }

  lemma {:induction false} MappedRearranged<A, B>(f: A -> B, a: seq<A>, b: seq<A>)
    requires multiset(a) == multiset(b)
    ensures multiset(Mapped(f, a)) == multiset(Mapped(f, b))
  {
    SameSize(a, b);
    if a != [] {
      SameElements(a, b);
      assert a[0] in b;
      var i :| 0 <= i < |b| && b[i] == a[0];
      hide Mapped;
      WithoutOne(a, b, i);
      MappedRearranged(f, a[1..], b[..i] + b[i + 1..]);
      MappedAround(f, a, 0);
      MappedAround(f, b, i);
      assert a[..0] + a[0 + 1..] == a[1..];
    }
  }

  lemma {:induction false} KeysAreMapped(a: seq<FileEntry>)
    ensures Keys(a) == Mapped(KeyOf, a)
  {
    hide KeyOf;
    if a != [] {
      KeysAreMapped(a[1..]);
      assert a == [a[0]] + a[1..];
      KeysConcat([a[0]], a[1..]);
      KeyOfOne(a[0]);
    }
  }

  /** Rearranging the entries rearranges their keys. */
  lemma KeysRearranged(a: seq<FileEntry>, b: seq<FileEntry>)
    requires multiset(a) == multiset(b)
    ensures multiset(Keys(a)) == multiset(Keys(b))
  {
    hide *;
    KeysAreMapped(a);
    KeysAreMapped(b);
    MappedRearranged(KeyOf, a, b);
  }

  lemma KeysSorted(a: seq<FileEntry>)
    requires Sorted(ByPath, a)
    ensures Sorted(KeyByPath, Keys(a))
  {
    hide Leq;
    forall i, j | 0 <= i < j < |a| ensures KeyByPath(Keys(a)[i], Keys(a)[j]) {
      assert ByPath(a[i], a[j]);
    }
  }

  /** Where a path has one key, no two different keys tie. */
  lemma KeysWithoutTies(a: seq<FileEntry>, b: seq<FileEntry>)
    requires OneKeyPerPath(a) && multiset(a) == multiset(b)
    ensures NoTies(KeyByPath, Keys(b))
  {
    SameElements(a, b);
    var keys := Keys(b);
    forall x, y | x in keys && y in keys && KeyByPath(x, y) && KeyByPath(y, x) ensures x == y {
      LeqAntisymmetric(x.path, y.path);
      var i :| 0 <= i < |keys| && keys[i] == x;
      var j :| 0 <= j < |keys| && keys[j] == y;
      assert b[i] in a && b[j] in a;
    }
  }

  lemma OrderIsInvisible(a: seq<FileEntry>, b: seq<FileEntry>)
    requires OneKeyPerPath(a) && Rearranged(a, b)
    ensures Keys(Sort(ByPath, a)) == Keys(Sort(ByPath, b))
  {
    var x, y := Sort(ByPath, a), Sort(ByPath, b);
    ByPathIsTotalPreorder();
    SortSorts(ByPath, a);
    SortSorts(ByPath, b);
    hide *;
    RearrangedIs(a, b);
    KeysRearranged(x, y);
    KeysSorted(x);
    KeysSorted(y);
    KeysWithoutTies(a, x);
    KeysWithoutTies(a, y);
    SortedUnique(KeyByPath, Keys(x), Keys(y));
  }

  lemma RearrangedIs(a: seq<FileEntry>, b: seq<FileEntry>)
    requires Rearranged(a, b)
    ensures multiset(a) == multiset(b)
  {
  }

  // ---- two keys on one path: exchanging them shows ----

  function Exchanged(a: seq<FileEntry>, i: nat, j: nat): seq<FileEntry>
    requires i < j < |a|
  {
    a[i := a[j]][j := a[i]]
  }

  lemma Swapped<T>(a: seq<T>, i: nat, j: nat)
    requires i < j < |a|
    ensures multiset(a) == multiset(a[i := a[j]][j := a[i]])
  {
    var once := a[i := a[j]];
    assert multiset(once) == multiset(a)[a[i] := multiset(a)[a[i]] - 1] + multiset{a[j]};
  }

  lemma ExchangedIsRearranged(a: seq<FileEntry>, i: nat, j: nat)
    requires i < j < |a|
    ensures Rearranged(a, Exchanged(a, i, j))
  {
    Swapped(a, i, j);
  }

  lemma {:induction false} FilterConcat(p: FileEntry -> bool, a: seq<FileEntry>, b: seq<FileEntry>)
    ensures Filter(p, a + b) == Filter(p, a) + Filter(p, b)
  {
    if a == [] {
      assert a + b == b;
    } else {
      FilterConcat(p, a[1..], b);
      assert (a + b)[1..] == a[1..] + b;
    }
  }

  /** The filtered list at the place where the kept element `a[i]` ends up. */
  lemma FilteredAt(p: FileEntry -> bool, a: seq<FileEntry>, i: nat)
    requires i < |a| && p(a[i])
    ensures |Filter(p, a[..i])| < |Filter(p, a)| && Filter(p, a)[|Filter(p, a[..i])|] == a[i]
  {
    var rest := a[i..];
    assert a == a[..i] + rest && rest[0] == a[i];
    FilterConcat(p, a[..i], rest);
  }

  /** Equal key lists have equal key lists of one path. */
  lemma {:induction false} FilteredKeys(p: FileEntry -> bool, path: Str, a: seq<FileEntry>, b: seq<FileEntry>)
    requires forall e :: p(e) <==> e.path == path
    requires Keys(a) == Keys(b)
    ensures Keys(Filter(p, a)) == Keys(Filter(p, b))
  {
    assert |Keys(a)| == |a| && |Keys(b)| == |b|;
    if a != [] {
      assert KeyOf(a[0]) == Keys(a)[0] == Keys(b)[0] == KeyOf(b[0]);
      forall k | 0 <= k < |a| - 1 ensures Keys(a[1..])[k] == Keys(b[1..])[k] {
        assert Keys(a)[k + 1] == Keys(b)[k + 1];
      }
      FilteredKeys(p, path, a[1..], b[1..]);
      if p(a[0]) {
        KeysConcat([a[0]], Filter(p, a[1..]));
        KeysConcat([b[0]], Filter(p, b[1..]));
        KeyOfOne(a[0]);
        KeyOfOne(b[0]);
      }
    }
  }

  lemma SamePathTies(p: FileEntry -> bool, path: Str)
    requires forall e :: p(e) <==> e.path == path
    ensures forall x, y :: p(x) && p(y) ==> ByPath(x, y)
  {
    LeqTotal(path, path);
  }

  lemma ExchangeShows(a: seq<FileEntry>, i: nat, j: nat)
    requires i < j < |a| && a[i].path == a[j].path && KeyOf(a[i]) != KeyOf(a[j])
    ensures Keys(Sort(ByPath, a)) != Keys(Sort(ByPath, Exchanged(a, i, j)))
  {
    var b, path := Exchanged(a, i, j), a[i].path;
    var p := (e: FileEntry) => e.path == path;
    assert a[..i] == b[..i] && b[i] == a[j];
    FilteredAt(p, a, i);
    FilteredAt(p, b, i);
    var k := |Filter(p, a[..i])|;
    assert Keys(Filter(p, a))[k] == KeyOf(a[i]) && Keys(Filter(p, b))[k] == KeyOf(a[j]);
    SamePathTies(p, path);
    SortStable(ByPath, p, a);
    SortStable(ByPath, p, b);
    if Keys(Sort(ByPath, a)) == Keys(Sort(ByPath, b)) {
      hide Sort, Filter, Keys;
      FilteredKeys(p, path, Sort(ByPath, a), Sort(ByPath, b));
    }
  }

  // ---- both ----

  /** The order of the entries is invisible exactly when entries that share a path share their key. */
  lemma OrderShowsInKeys(a: seq<FileEntry>)
    ensures (forall b :: Rearranged(a, b) ==> Keys(Sort(ByPath, b)) == Keys(Sort(ByPath, a))) <==> OneKeyPerPath(a)
  {
    hide Rearranged, Sort, Keys;
    if OneKeyPerPath(a) {
      forall b | Rearranged(a, b) ensures Keys(Sort(ByPath, b)) == Keys(Sort(ByPath, a)) {
        OrderIsInvisible(a, b);
      }
    } else {
      var i, j :| 0 <= i < j < |a| && a[i].path == a[j].path && KeyOf(a[i]) != KeyOf(a[j]);
      ExchangedIsRearranged(a, i, j);
      ExchangeShows(a, i, j);
    }
  }

  lemma SameKeySameBytes(a: seq<FileEntry>, b: seq<FileEntry>, k: nat)
    requires Keys(a) == Keys(b) && k < |a| && k < |b|
    ensures EntryBytes(a[k]) == EntryBytes(b[k])
  {
    assert KeyOf(a[k]) == Keys(a)[k] == Keys(b)[k] == KeyOf(b[k]);
  }

  lemma SameKeysInFront(a: seq<FileEntry>, b: seq<FileEntry>, n: nat)
    requires Keys(a) == Keys(b) && n <= |a| && n <= |b|
    ensures Keys(a[..n]) == Keys(b[..n])
  {
    hide KeyOf;
    forall k | 0 <= k < n ensures Keys(a[..n])[k] == Keys(b[..n])[k] {
      assert Keys(a)[k] == Keys(b)[k];
    }
  }

  lemma SameKeysSameLength(a: seq<FileEntry>, b: seq<FileEntry>)
    requires Keys(a) == Keys(b)
    ensures |a| == |b|
  {
    assert |Keys(a)| == |a| && |Keys(b)| == |b|;
  }

  lemma {:induction false} SerializedFromKeys(a: seq<FileEntry>, b: seq<FileEntry>)
    requires Keys(a) == Keys(b)
    ensures Serialized(a) == Serialized(b)
  {
    SameKeysSameLength(a, b);
    if a != [] {
      hide EntryBytes, Keys, KeyOf;
      var n := |a| - 1;
      SameKeySameBytes(a, b, n);
      SameKeysInFront(a, b, n);
      SerializedFromKeys(a[..n], b[..n]);
    }
  }

  /** The same of the bytes the root hash is made of, for paths and hashes without NUL bytes. */
  lemma OrderShowsInRootHash(a: seq<FileEntry>)
    requires NulFree(a)
    ensures (forall b :: Rearranged(a, b) ==> RootPreimage(b) == RootPreimage(a)) <==> OneKeyPerPath(a)
  {
    OrderShowsInKeys(a);
    forall b | Rearranged(a, b)
      ensures RootPreimage(b) == RootPreimage(a) <==> Keys(Sort(ByPath, b)) == Keys(Sort(ByPath, a))
    {
      SameElements(a, b);
      assert NulFree(b);
      hide Rearranged, Sort, Keys, Serialized, NulFree;
      if RootPreimage(b) == RootPreimage(a) {
        PreimageDecodes(a, b);
      }
      if Keys(Sort(ByPath, b)) == Keys(Sort(ByPath, a)) {
        SerializedFromKeys(Sort(ByPath, b), Sort(ByPath, a));
      }
    }
  }
}
