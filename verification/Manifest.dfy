/** Workspace manifests (crates/rc-core/src/manifest.rs). */
module Manifest {
  import opened Text
  import opened Sorting

  datatype FileEntry = FileEntry(
    path: Str,
    size: nat,
    hash: Str,
    kind: int,
    executable: bool,
    inBaseline: bool,
    symlinkTarget: Str)

  datatype RootInfo = RootInfo(mount: Str, localPath: Str, primary: bool, bytes: nat, files: nat)

  datatype Manifest = Manifest(
    entries: seq<FileEntry>,
    rootHash: Str,
    baseCommit: Str,
    baseline: bool,
    anchorMount: Str,
    roots: seq<RootInfo>)

  predicate ByPath(a: FileEntry, b: FileEntry) {
    Leq(a.path, b.path)
  }

  lemma ByPathIsTotalPreorder()
    ensures TotalPreorder(ByPath)
  {
    forall x, y ensures ByPath(x, y) || ByPath(y, x) { LeqTotal(x.path, y.path); }
    forall x, y, z | ByPath(x, y) && ByPath(y, z) ensures ByPath(x, z) { LeqTransitive(x.path, y.path, z.path); }
  }

  predicate DistinctPaths(entries: seq<FileEntry>) {
    forall i, j :: 0 <= i < j < |entries| ==> entries[i].path != entries[j].path
  }

  /** `dedup_by` path: of neighbours with one path, the first stays. */
  function DedupByPath(entries: seq<FileEntry>): (r: seq<FileEntry>)
    ensures |r| <= |entries|
    ensures entries != [] ==> r != [] && r[0] == entries[0]
    decreases |entries|
  {
    if |entries| <= 1 then entries
    else if entries[0].path == entries[1].path then DedupByPath([entries[0]] + entries[2..])
    else [entries[0]] + DedupByPath(entries[1..])
  }

  lemma {:induction false} DedupOfDistinct(entries: seq<FileEntry>)
    requires DistinctPaths(entries)
    ensures DedupByPath(entries) == entries
    decreases |entries|
  {
    if |entries| > 1 {
      DedupOfDistinct(entries[1..]);
      assert entries == [entries[0]] + entries[1..];
    }
  }

  // ---- the root hash ----

  /** `r#type as u8` keeps the low byte. */
  function KindByte(kind: int): byte {
    (kind % 256) as byte
  }

  function EntryBytes(e: FileEntry): Str {
    e.path + [NUL] +
      (Decimal(e.size) + [NUL] + (e.hash + [NUL] + [KindByte(e.kind), if e.executable then 1 else 0, NEWLINE]))
  }

  function Serialized(entries: seq<FileEntry>): Str {
    if entries == [] then [] else Serialized(entries[..|entries| - 1]) + EntryBytes(entries[|entries| - 1])
  }

  /** What the hasher has been fed by the time it is finalized. */
  function RootPreimage(entries: seq<FileEntry>): Str {
    Serialized(Sort(ByPath, entries))
  }

  // ---- the bytes, said of the entries ----

  /** Path, size in digits and hash, each ended by a NUL, then the low byte of the kind, the executable
      bit and a line break. */
  ghost predicate EntrySpelled(bytes: Str, e: FileEntry) {
    exists digits :: Spells(digits, e.size) &&
      bytes == e.path + [0] + digits + [0] + e.hash + [0] + [(e.kind % 256) as byte, if e.executable then 1 else 0, 10]
  }

  /** `stages` spell the listed entries one after the other. */
  ghost predicate SpelledInTurn(stages: seq<Str>, listed: seq<FileEntry>) {
    && |stages| == |listed| + 1 && stages[0] == []
    && forall i {:trigger listed[i]} :: 0 <= i < |listed| ==>
      stages[i] <= stages[i + 1] && EntrySpelled(stages[i + 1][|stages[i]|..], listed[i])
  }

  /** The entries in the order of their paths; those of one path in the order given. */
  ghost predicate InPathOrder(listed: seq<FileEntry>, entries: seq<FileEntry>) {
    && multiset(listed) == multiset(entries)
    && (forall i, j :: 0 <= i < j < |listed| ==> Leq(listed[i].path, listed[j].path))
    && forall p :: OnPath(listed, p) == OnPath(entries, p)
  }

  ghost function OnPath(entries: seq<FileEntry>, p: Str): seq<FileEntry> {
    Filter((e: FileEntry) => e.path == p, entries)
  }

  /** What the hash of these entries is taken of. */
  ghost predicate Feeds(fed: Str, entries: seq<FileEntry>) {
    exists listed, stages :: InPathOrder(listed, entries) && SpelledInTurn(stages, listed) && fed == stages[|listed|]
  }

  ghost predicate HashOf(rootHash: Str, hash: Str -> Str, entries: seq<FileEntry>) {
    exists fed :: Feeds(fed, entries) && rootHash == hash(fed)
  }

  lemma EntryIsSpelled(e: FileEntry)
    ensures EntrySpelled(EntryBytes(e), e)
  {
    hide Decimal, Spells;
    DecimalSpells(e.size);
    assert EntryBytes(e) == e.path + [0] + Decimal(e.size) + [0] + e.hash + [0]
                            + [(e.kind % 256) as byte, if e.executable then 1 else 0, 10];
  }

  lemma {:induction false} SerializedStages(listed: seq<FileEntry>) returns (stages: seq<Str>)
    ensures SpelledInTurn(stages, listed) && Serialized(listed) == stages[|listed|]
  {
    hide EntryBytes, EntrySpelled;
    if listed == [] {
      stages := [[]];
    } else {
      var before, last := listed[..|listed| - 1], listed[|listed| - 1];
      stages := SerializedStages(before);
      EntryIsSpelled(last);
      var top := stages[|before|];
      assert Serialized(listed)[|top|..] == EntryBytes(last);
      stages := stages + [Serialized(listed)];
      forall i | 0 <= i < |listed|
        ensures stages[i] <= stages[i + 1] && EntrySpelled(stages[i + 1][|stages[i]|..], listed[i]) {
        if i < |before| { assert before[i] == listed[i]; }
      }
    }
  }

  lemma SortedInPathOrder(entries: seq<FileEntry>)
    ensures InPathOrder(Sort(ByPath, entries), entries)
  {
    hide Sort, Leq;
    ByPathIsTotalPreorder();
    SortSorts(ByPath, entries);
    LeqIsTotalPreorder();
    forall p ensures OnPath(Sort(ByPath, entries), p) == OnPath(entries, p) {
      LeqTotal(p, p);
      SortStable(ByPath, (e: FileEntry) => e.path == p, entries);
    }
  }

  lemma PreimageFeeds(entries: seq<FileEntry>)
    ensures Feeds(RootPreimage(entries), entries)
  {
    hide InPathOrder, SpelledInTurn, Sort, Serialized;
    SortedInPathOrder(entries);
    var stages := SerializedStages(Sort(ByPath, entries));
  }

  lemma HashOfPreimage(hash: Str -> Str, entries: seq<FileEntry>)
    ensures HashOf(hash(RootPreimage(entries)), hash, entries)
  {
    hide Feeds, RootPreimage;
    PreimageFeeds(entries);
  }

  method RootHash(hash: Str -> Str, entries: seq<FileEntry>) returns (r: Str)
    ensures r == hash(RootPreimage(entries))
    ensures HashOf(r, hash, entries)
  {
    HashOfPreimage(hash, entries);
    hide HashOf, EntryBytes;
    var sorted := Sort(ByPath, entries);
    var fed: Str := [];
    for i := 0 to |sorted|
      invariant fed == Serialized(sorted[..i])
    {
      var e := sorted[i];
      assert sorted[..i + 1][..i] == sorted[..i];
      fed := fed + EntryBytes(e);
    }
    assert sorted[..|sorted|] == sorted;
    r := hash(fed);
  }

  /** The fields of an entry that change what is built. */
  datatype EntryKey = EntryKey(path: Str, size: nat, hash: Str, kind: byte, executable: bool)

  function KeyOf(e: FileEntry): EntryKey {
    EntryKey(e.path, e.size, e.hash, KindByte(e.kind), e.executable)
  }

  function Keys(entries: seq<FileEntry>): (r: seq<EntryKey>)
    ensures |r| == |entries|
    ensures forall k :: 0 <= k < |r| ==> r[k] == KeyOf(entries[k])
  {
    seq(|entries|, k requires 0 <= k < |entries| => KeyOf(entries[k]))
  }

  predicate NulFree(entries: seq<FileEntry>) {
    forall e :: e in entries ==> NUL !in e.path && NUL !in e.hash
  }

  /** Cutting at the first NUL: what precedes it is a field without NULs. */
  lemma FieldsBeforeNul(a: Str, b: Str, x: Str, y: Str)
    requires NUL !in a && NUL !in b
    requires a + [NUL] + x == b + [NUL] + y
    ensures a == b && x == y
  {
    var s, t := a + [NUL] + x, b + [NUL] + y;
    assert s[|a|] == NUL && t[|b|] == NUL;
    assert forall k :: 0 <= k < |a| ==> s[k] == a[k];
    assert forall k :: 0 <= k < |b| ==> t[k] == b[k];
    assert |a| == |b|;
    assert a == s[..|a|] && b == t[..|b|];
    assert x == s[|a| + 1..] && y == t[|b| + 1..];
  }

  function Tail(e: FileEntry, rest: Str): Str {
    [KindByte(e.kind), if e.executable then 1 else 0, NEWLINE] + rest
  }

  lemma EntryFraming(e: FileEntry, rest: Str)
    ensures EntryBytes(e) + rest ==
      e.path + [NUL] + (Decimal(e.size) + [NUL] + (e.hash + [NUL] + Tail(e, rest)))
  {
  }

  lemma EntryDecodes(e: FileEntry, f: FileEntry, x: Str, y: Str)
    requires NulFree([e]) && NulFree([f])
    requires EntryBytes(e) + x == EntryBytes(f) + y
    ensures KeyOf(e) == KeyOf(f) && x == y
  {
    assert e in [e] && f in [f];
    EntryFraming(e, x);
    EntryFraming(f, y);
    FieldsBeforeNul(e.path, f.path, Decimal(e.size) + [NUL] + (e.hash + [NUL] + Tail(e, x)),
      Decimal(f.size) + [NUL] + (f.hash + [NUL] + Tail(f, y)));
    FieldsBeforeNul(Decimal(e.size), Decimal(f.size), e.hash + [NUL] + Tail(e, x), f.hash + [NUL] + Tail(f, y));
    FieldsBeforeNul(e.hash, f.hash, Tail(e, x), Tail(f, y));
    DecimalInjective(e.size, f.size);
    TailDecodes(e, f, x, y);
  }

  lemma TailDecodes(e: FileEntry, f: FileEntry, x: Str, y: Str)
    requires Tail(e, x) == Tail(f, y)
    ensures KindByte(e.kind) == KindByte(f.kind) && e.executable == f.executable && x == y
  {
    var s, t := Tail(e, x), Tail(f, y);
    assert s[0] == KindByte(e.kind) && t[0] == KindByte(f.kind);
    assert s[1] == (if e.executable then 1 else 0) && t[1] == (if f.executable then 1 else 0);
    assert s[3..] == x && t[3..] == y;
  }

  function SerializedFront(entries: seq<FileEntry>): Str {
    if entries == [] then [] else EntryBytes(entries[0]) + SerializedFront(entries[1..])
  }

  lemma {:induction false} SerializedEitherWay(entries: seq<FileEntry>)
    ensures Serialized(entries) == SerializedFront(entries)
  {
    hide EntryBytes;
    if |entries| == 1 {
      assert entries[..0] == [] && entries[1..] == [];
    } else if |entries| > 1 {
      var n := |entries| - 1;
      SerializedEitherWay(entries[1..]);
      SerializedEitherWay(entries[..n]);
      SerializedEitherWay(entries[1..][..n - 1]);
      assert entries[1..][..n - 1] == entries[..n][1..];
    }
  }

  lemma {:induction false} FrontDecodes(a: seq<FileEntry>, b: seq<FileEntry>)
    requires NulFree(a) && NulFree(b)
    requires SerializedFront(a) == SerializedFront(b)
    ensures Keys(a) == Keys(b)
  {
    if a != [] && b != [] {
      assert a[0] in a && b[0] in b;
      EntryDecodes(a[0], b[0], SerializedFront(a[1..]), SerializedFront(b[1..]));
      FrontDecodes(a[1..], b[1..]);
      forall k | 0 <= k < |a| ensures Keys(a)[k] == Keys(b)[k] {
        if k > 0 { assert Keys(a[1..])[k - 1] == Keys(b[1..])[k - 1]; }
      }
    }
  }

  /** The serialization never smears one entry into another: equal preimages come from the same
      sorted list of (path, size, hash, kind byte, executable). */
  lemma PreimageDecodes(a: seq<FileEntry>, b: seq<FileEntry>)
    requires NulFree(a) && NulFree(b)
    requires RootPreimage(a) == RootPreimage(b)
    ensures Keys(Sort(ByPath, a)) == Keys(Sort(ByPath, b))
  {
    var sa, sb := Sort(ByPath, a), Sort(ByPath, b);
    SameElements(a, sa);
    SameElements(b, sb);
    SerializedEitherWay(sa);
    SerializedEitherWay(sb);
    FrontDecodes(sa, sb);
  }

  /** The order entries arrive in never matters when their paths differ. */
  lemma PreimageOfPermutation(a: seq<FileEntry>, b: seq<FileEntry>)
    requires multiset(a) == multiset(b) && DistinctPaths(a)
    ensures Sort(ByPath, a) == Sort(ByPath, b)
    ensures RootPreimage(a) == RootPreimage(b)
  {
    ByPathIsTotalPreorder();
    forall x, y | x in a && y in a && ByPath(x, y) && ByPath(y, x) ensures x == y {
      LeqAntisymmetric(x.path, y.path);
    }
    SortOfPermutation(ByPath, a, b);
  }

  /** `build_multi`. */
  method BuildMulti(hash: Str -> Str, entries: seq<FileEntry>, baseCommit: Str, baseline: bool,
                    anchorMount: Str, roots: seq<RootInfo>) returns (m: Manifest)
    ensures m == Manifest(DedupByPath(Sort(ByPath, entries)),
      hash(RootPreimage(DedupByPath(Sort(ByPath, entries)))), baseCommit, baseline, anchorMount, roots)
    ensures HashOf(m.rootHash, hash, m.entries)
  {
    hide HashOf;
    var sorted := DedupByPath(Sort(ByPath, entries));
    var rootHash := RootHash(hash, sorted);
    m := Manifest(sorted, rootHash, baseCommit, baseline, anchorMount, roots);
  }

  /** With distinct paths the manifest drops nothing: it is the entries, sorted. */
  lemma NothingDropped(entries: seq<FileEntry>)
    requires DistinctPaths(entries)
    ensures var kept := DedupByPath(Sort(ByPath, entries));
      kept == Sort(ByPath, entries) && multiset(kept) == multiset(entries) && Sorted(ByPath, kept) &&
        DistinctPaths(kept)
  {
    var sorted := Sort(ByPath, entries);
    ByPathIsTotalPreorder();
    SortSorts(ByPath, entries);
    DistinctAfterPermutation(entries, sorted);
    SameElements(entries, sorted);
    forall i, j | 0 <= i < j < |sorted| ensures sorted[i].path != sorted[j].path {
      assert sorted[i] in entries && sorted[j] in entries;
    }
    DedupOfDistinct(sorted);
  }

  // ---- case conflicts ----

  predicate Clash(lower: Str -> Str, a: Str, b: Str) {
    a != b && lower(a) == lower(b)
  }

  ghost predicate ClashAmong(lower: Str -> Str, entries: seq<FileEntry>) {
    exists i, j :: 0 <= i < j < |entries| && Clash(lower, entries[i].path, entries[j].path)
  }

  ghost predicate ClashesIn(lower: Str -> Str, entries: seq<FileEntry>, pair: (Str, Str)) {
    exists i, j :: 0 <= i < j < |entries| && pair == (entries[i].path, entries[j].path) && Clash(lower, pair.0, pair.1)
  }

  /** `find_case_conflicts`: it reports something exactly when two paths differ only by case, and
      only such pairs. */
  method FindCaseConflicts(lower: Str -> Str, entries: seq<FileEntry>) returns (conflicts: seq<(Str, Str)>)
    ensures conflicts != [] <==> ClashAmong(lower, entries)
    ensures forall c :: c in conflicts ==> ClashesIn(lower, entries, c)
  {
    var seen: map<Str, Str> := map[];
    conflicts := [];
    for i := 0 to |entries|
      invariant forall k :: 0 <= k < i ==> lower(entries[k].path) in seen
      invariant forall key :: key in seen ==> lower(seen[key]) == key
      invariant forall key :: key in seen ==> exists k :: 0 <= k < i && entries[k].path == seen[key]
      invariant forall c :: c in conflicts ==> ClashesIn(lower, entries, c)
      invariant conflicts == [] ==> forall k :: 0 <= k < i ==> seen[lower(entries[k].path)] == entries[k].path
    {
      var path := entries[i].path;
      var key := lower(path);
      if key in seen {
        if seen[key] != path {
          assert ClashesIn(lower, entries, (seen[key], path));
          conflicts := conflicts + [(seen[key], path)];
        }
      } else {
        seen := seen[key := path];
      }
    }
    if conflicts != [] {
      assert ClashesIn(lower, entries, conflicts[0]);
    }
  }

  const COLON: byte := 58

  /** `is_safe_relative_path`. */
  predicate IsSafeRelativePath(path: Str) {
    && path != [] && path[0] != SLASH && BACKSLASH !in path
    && !(|path| >= 2 && path[1] == COLON)
    && forall c :: c in Split(path, SLASH) ==> c != DOTS && c != DOT && c != []
  }

  lemma {:induction false} JoinHolds(parts: seq<Str>, b: byte)
    ensures (exists p :: p in parts && b in p) ==> b in Join(parts, [SLASH])
  {
    if parts != [] {
      JoinHolds(parts[1..], b);
      assert parts == [parts[0]] + parts[1..];
    }
  }

  lemma JoinStart(parts: seq<Str>)
    requires parts != [] && parts[0] != []
    ensures Join(parts, [SLASH]) != [] && Join(parts, [SLASH])[0] == parts[0][0]
  {
  }

  /** A path is safe exactly when none of its components is empty, `.` or `..` or holds a backslash, and
      it does not look like one with a drive letter. */
  lemma SafeExactly(parts: seq<Str>)
    requires parts != [] && forall p :: p in parts ==> SLASH !in p
    ensures var path := Join(parts, [47]);
      IsSafeRelativePath(path) <==>
        && (forall p: Str :: p in parts ==> p != [] && p != [46] && p != [46, 46] && 92 !in p)
        && !(|path| >= 2 && path[1] == 58)
  {
    var path := Join(parts, [SLASH]);
    SplitJoin(parts, SLASH);
    JoinHolds(parts, BACKSLASH);
    if forall p :: p in parts ==> BACKSLASH !in p { JoinWithout(parts, [SLASH], BACKSLASH); }
    assert parts[0] in parts;
    if parts[0] != [] {
      JoinStart(parts);
      assert parts[0][0] in parts[0];
    }
    hide Join, Split;
  }
}
