/** What the server checks before it accepts a manifest (`validate` in
    crates/rc-core/src/manifest.rs), and which scans pass. */
module Validation {
  import opened Text
  import opened Sorting
  import opened Paths
  import opened Roots
  import opened Manifest
  import opened MultiRoot

  const ENTRY_FILE: int := 0
  const ENTRY_SYMLINK: int := 1
  const HASH_LENGTH: nat := 64

  datatype Fault =
    | UnsafePath(path: Str)
    | BadHash(path: Str)
    | NoTarget(path: Str)
    | WrongTarget(path: Str)
    | CaseConflict(a: Str, b: Str)
    | UnsafeAnchor
    | UnsafeMount(mount: Str)
    | Primaries(count: nat)
    | AnchorDisagrees
    | NotThePrimarys(path: Str)
    | HashMismatch

  /** `under_mount`. */
  predicate UnderMount(path: Str, mount: Str) {
    mount == [] || (mount < path && path[|mount|] == SLASH)
  }

  /** What is wrong with one entry by itself. */
  function EntryFault(hash: Str -> Str, e: FileEntry): Option<Fault> {
    if !IsSafeRelativePath(e.path) then Some(UnsafePath(e.path))
    else if e.kind == ENTRY_FILE && |e.hash| != HASH_LENGTH then Some(BadHash(e.path))
    else if e.kind == ENTRY_SYMLINK && e.symlinkTarget == [] then Some(NoTarget(e.path))
    else if e.kind == ENTRY_SYMLINK && e.hash != hash(e.symlinkTarget) then Some(WrongTarget(e.path))
    else None
  }

  predicate MountOk(mount: Str) {
    mount == [] || IsSafeRelativePath(mount)
  }

  // ---- whose entry it is ----

  /** Index `o` has the longest mount over the path, the last one if several are as long. */
  ghost predicate Owns(roots: seq<RootInfo>, path: Str, o: nat) {
    && o < |roots| && UnderMount(path, roots[o].mount)
    && forall k :: 0 <= k < |roots| && UnderMount(path, roots[k].mount) ==>
      |roots[k].mount| < |roots[o].mount| || (|roots[k].mount| == |roots[o].mount| && k <= o)
  }

  method FindOwner(roots: seq<RootInfo>, path: Str) returns (owner: Option<nat>)
    ensures owner.Some? ==> Owns(roots, path, owner.value)
    ensures owner.None? ==> forall k :: 0 <= k < |roots| ==> !UnderMount(path, roots[k].mount)
  {
    owner := None;
    for i := 0 to |roots|
      invariant owner.Some? ==> owner.value < i && Owns(roots[..i], path, owner.value)
      invariant owner.None? ==> forall k :: 0 <= k < i ==> !UnderMount(path, roots[k].mount)
    {
      if UnderMount(path, roots[i].mount) && (owner.None? || |roots[owner.value].mount| <= |roots[i].mount|) {
        owner := Some(i);
      }
    }
    assert roots[..|roots|] == roots;
  }

  function PrimaryCount(roots: seq<RootInfo>): nat {
    if roots == [] then 0 else PrimaryCount(roots[..|roots| - 1]) + (if roots[|roots| - 1].primary then 1 else 0)
  }

  ghost predicate PrimaryOwnsPath(roots: seq<RootInfo>, path: Str) {
    exists o: nat :: Owns(roots, path, o) && roots[o].primary
  }

  /** An entry from the baseline must belong to a primary root. */
  ghost predicate BaselineOk(roots: seq<RootInfo>, e: FileEntry) {
    e.inBaseline ==> PrimaryOwnsPath(roots, e.path)
  }

  ghost predicate RootsOk(m: Manifest) {
    m.roots != [] ==>
      && PrimaryCount(m.roots) == 1
      && (exists p :: 0 <= p < |m.roots| && m.roots[p].primary && m.roots[p].mount == m.anchorMount)
      && forall e :: e in m.entries ==> BaselineOk(m.roots, e)
  }

  /** Everything `validate` asks for. */
  ghost predicate Acceptable(hash: Str -> Str, lower: Str -> Str, m: Manifest) {
    && (forall e :: e in m.entries ==> EntryFault(hash, e).None?)
    && !ClashAmong(lower, m.entries)
    && MountOk(m.anchorMount) && (forall r :: r in m.roots ==> MountOk(r.mount))
    && RootsOk(m)
    && m.rootHash == hash(RootPreimage(m.entries))
  }

  // ---- the same, of the manifest alone ----

  ghost predicate EntryRight(hash: Str -> Str, e: FileEntry) {
    && IsSafeRelativePath(e.path)
    && (e.kind == 0 ==> |e.hash| == 64)
    && (e.kind == 1 ==> e.symlinkTarget != [] && e.hash == hash(e.symlinkTarget))
  }

  ghost predicate Contains(mount: Str, path: Str) {
    mount == [] || (|mount| < |path| && path[..|mount|] == mount && path[|mount|] == 47)
  }

  /** The root with the longest mount over the path, the last of several. */
  ghost predicate LongestOver(roots: seq<RootInfo>, path: Str, o: nat) {
    && o < |roots| && Contains(roots[o].mount, path)
    && forall k :: 0 <= k < |roots| && Contains(roots[k].mount, path) ==>
      |roots[k].mount| < |roots[o].mount| || (|roots[k].mount| == |roots[o].mount| && k <= o)
  }

  ghost predicate SomeTwins(lower: Str -> Str, entries: seq<FileEntry>) {
    exists a, b :: Twins(lower, entries, a, b)
  }

  ghost predicate Twins(lower: Str -> Str, entries: seq<FileEntry>, a: Str, b: Str) {
    && a != b && lower(a) == lower(b)
    && (exists e :: e in entries && e.path == a) && (exists e :: e in entries && e.path == b)
  }

  ghost predicate OnlyPrimary(roots: seq<RootInfo>, p: nat) {
    p < |roots| && roots[p].primary && forall k :: 0 <= k < |roots| && roots[k].primary ==> k == p
  }

  /** The one primary lies at the anchor's mount and owns every baseline entry. */
  ghost predicate PrimaryOwnsBaseline(m: Manifest, p: nat) {
    && OnlyPrimary(m.roots, p) && m.roots[p].mount == m.anchorMount
    && forall e :: e in m.entries && e.inBaseline ==> LongestOver(m.roots, e.path, p)
  }

  ghost predicate MountRight(mount: Str) {
    mount != [] ==> IsSafeRelativePath(mount)
  }

  /** Safe paths and mounts, hashes of the right form, no two paths that differ by case alone, one
      primary at the anchor's mount that owns every baseline entry, and the right hash. */
  ghost predicate Right(hash: Str -> Str, lower: Str -> Str, m: Manifest) {
    && (forall e :: e in m.entries ==> EntryRight(hash, e))
    && !SomeTwins(lower, m.entries)
    && MountRight(m.anchorMount) && (forall r :: r in m.roots ==> MountRight(r.mount))
    && (m.roots != [] ==> exists p: nat :: PrimaryOwnsBaseline(m, p))
    && m.rootHash == hash(RootPreimage(m.entries))
  }

  /** The fault reported is one the manifest has. */
  ghost predicate Present(hash: Str -> Str, lower: Str -> Str, m: Manifest, fault: Fault) {
    match fault
    case UnsafePath(p) => exists e :: e in m.entries && e.path == p && !IsSafeRelativePath(p)
    case BadHash(p) => exists e :: e in m.entries && e.path == p && e.kind == 0 && |e.hash| != 64
    case NoTarget(p) => exists e :: e in m.entries && e.path == p && e.kind == 1 && e.symlinkTarget == []
    case WrongTarget(p) =>
      exists e :: e in m.entries && e.path == p && e.kind == 1 && e.hash != hash(e.symlinkTarget)
    case CaseConflict(a, b) => Twins(lower, m.entries, a, b)
    case UnsafeAnchor => !MountRight(m.anchorMount)
    case UnsafeMount(mount) => (exists r :: r in m.roots && r.mount == mount) && !MountRight(mount)
    case Primaries(n) => n != 1 && n == |set k | 0 <= k < |m.roots| && m.roots[k].primary|
    case AnchorDisagrees => exists p: nat :: OnlyPrimary(m.roots, p) && m.roots[p].mount != m.anchorMount
    case NotThePrimarys(p) => exists e :: e in m.entries && e.path == p && Strays(m.roots, e)
    case HashMismatch => m.rootHash != hash(RootPreimage(m.entries))
  }

  /** A baseline entry that no primary root owns. */
  ghost predicate Strays(roots: seq<RootInfo>, e: FileEntry) {
    e.inBaseline && forall o: nat :: LongestOver(roots, e.path, o) ==> !roots[o].primary
  }

  lemma EntryFaultPresent(hash: Str -> Str, lower: Str -> Str, m: Manifest, e: FileEntry)
    requires e in m.entries && EntryFault(hash, e).Some?
    ensures Present(hash, lower, m, EntryFault(hash, e).value)
  {
    hide IsSafeRelativePath;
  }

  lemma StrayPresent(hash: Str -> Str, lower: Str -> Str, m: Manifest, e: FileEntry)
    requires e in m.entries && !BaselineOk(m.roots, e)
    ensures Present(hash, lower, m, NotThePrimarys(e.path))
  {
    forall o: nat | LongestOver(m.roots, e.path, o) ensures !m.roots[o].primary {
      OwnsIsLongest(m.roots, e.path, o);
    }
    hide LongestOver, Owns;
    assert Strays(m.roots, e);
  }

  lemma ClashPresent(hash: Str -> Str, lower: Str -> Str, m: Manifest, pair: (Str, Str))
    requires ClashesIn(lower, m.entries, pair)
    ensures Present(hash, lower, m, Fault.CaseConflict(pair.0, pair.1))
  {
    var i, j :| 0 <= i < j < |m.entries| && pair == (m.entries[i].path, m.entries[j].path) &&
      Clash(lower, pair.0, pair.1);
    assert m.entries[i] in m.entries && m.entries[j] in m.entries;
  }

  lemma PrimariesPresent(hash: Str -> Str, lower: Str -> Str, m: Manifest, count: nat, first: nat)
    requires count == PrimaryCount(m.roots)
    requires count == 1 ==> OnlyPrimary(m.roots, first)
    ensures count != 1 ==> Present(hash, lower, m, Primaries(count))
    ensures count == 1 && m.roots[first].mount != m.anchorMount ==> Present(hash, lower, m, AnchorDisagrees)
  {
    PrimariesCounted(m.roots);
    hide PrimaryCount;
  }

  lemma MountPresent(hash: Str -> Str, lower: Str -> Str, m: Manifest)
    ensures !MountOk(m.anchorMount) ==> Present(hash, lower, m, UnsafeAnchor)
    ensures forall r :: r in m.roots && !MountOk(r.mount) ==> Present(hash, lower, m, UnsafeMount(r.mount))
  {
    hide IsSafeRelativePath;
  }

  lemma HashPresent(hash: Str -> Str, lower: Str -> Str, m: Manifest)
    ensures m.rootHash != hash(RootPreimage(m.entries)) ==> Present(hash, lower, m, HashMismatch)
  {
    hide RootPreimage;
  }

  lemma EntryRightExactly(hash: Str -> Str, e: FileEntry)
    ensures EntryFault(hash, e).None? <==> EntryRight(hash, e)
  {
    hide IsSafeRelativePath;
  }

  lemma OwnsIsLongest(roots: seq<RootInfo>, path: Str, o: nat)
    ensures Owns(roots, path, o) <==> LongestOver(roots, path, o)
  {
    forall mount: Str ensures UnderMount(path, mount) <==> Contains(mount, path) {
    }
  }

  lemma TwinsAreClashes(lower: Str -> Str, entries: seq<FileEntry>)
    ensures ClashAmong(lower, entries) <==> SomeTwins(lower, entries)
  {
    if ClashAmong(lower, entries) {
      var i, j :| 0 <= i < j < |entries| && Clash(lower, entries[i].path, entries[j].path);
      assert entries[i] in entries && entries[j] in entries;
      assert Twins(lower, entries, entries[i].path, entries[j].path);
    }
    if a, b :| Twins(lower, entries, a, b) {
      var e :| e in entries && e.path == a;
      var f :| f in entries && f.path == b;
      var i :| 0 <= i < |entries| && entries[i] == e;
      var j :| 0 <= j < |entries| && entries[j] == f;
      assert Clash(lower, entries[if i < j then i else j].path, entries[if i < j then j else i].path);
    }
  }

  lemma {:induction false} PrimariesCounted(roots: seq<RootInfo>)
    ensures PrimaryCount(roots) == |set k | 0 <= k < |roots| && roots[k].primary|
  {
    var all := set k | 0 <= k < |roots| && roots[k].primary;
    if roots == [] {
      assert all == {};
    } else {
      var n := |roots| - 1;
      PrimariesCounted(roots[..n]);
      assert all == (set k | 0 <= k < n && roots[..n][k].primary) + (if roots[n].primary then {n} else {});
    }
  }

  lemma OneCounted(roots: seq<RootInfo>)
    ensures PrimaryCount(roots) == 1 <==> exists p: nat :: OnlyPrimary(roots, p)
  {
    PrimariesCounted(roots);
    var all := set k | 0 <= k < |roots| && roots[k].primary;
    if PrimaryCount(roots) == 1 {
      var p :| p in all;
      assert |all - {p}| == 0;
      forall k | 0 <= k < |roots| && roots[k].primary ensures k == p {
        assert k in all;
        assert k != p ==> k in all - {p};
      }
      assert OnlyPrimary(roots, p);
    }
    if p: nat :| OnlyPrimary(roots, p) {
      assert all == {p};
    }
  }

  lemma RootsRight(m: Manifest)
    requires m.roots != []
    ensures RootsOk(m) <==> exists p: nat :: PrimaryOwnsBaseline(m, p)
  {
    OneCounted(m.roots);
    hide PrimaryCount, LongestOver, UnderMount;
    if RootsOk(m) {
      var p: nat :| OnlyPrimary(m.roots, p);
      forall e | e in m.entries && e.inBaseline ensures LongestOver(m.roots, e.path, p) {
        assert BaselineOk(m.roots, e);
        var o: nat :| Owns(m.roots, e.path, o) && m.roots[o].primary;
        OwnsIsLongest(m.roots, e.path, o);
      }
      assert PrimaryOwnsBaseline(m, p);
    }
    if p: nat :| PrimaryOwnsBaseline(m, p) {
      forall e | e in m.entries ensures BaselineOk(m.roots, e) {
        OwnsIsLongest(m.roots, e.path, p);
      }
    }
  }

  lemma AcceptableIsRight(hash: Str -> Str, lower: Str -> Str, m: Manifest)
    ensures Acceptable(hash, lower, m) <==> Right(hash, lower, m)
  {
    if m.roots != [] { RootsRight(m); }
    TwinsAreClashes(lower, m.entries);
    hide IsSafeRelativePath, ClashAmong, SomeTwins, RootsOk, PrimaryOwnsBaseline, EntryFault, EntryRight, RootPreimage;
    forall e ensures EntryFault(hash, e).None? <==> EntryRight(hash, e) {
      EntryRightExactly(hash, e);
    }
  }

  method CheckEntries(hash: Str -> Str, entries: seq<FileEntry>) returns (r: Option<Fault>)
    ensures r.None? <==> forall e :: e in entries ==> EntryFault(hash, e).None?
    ensures r.Some? ==> exists e :: e in entries && EntryFault(hash, e) == r
  {
    hide EntryFault;
    for i := 0 to |entries|
      invariant forall k :: 0 <= k < i ==> EntryFault(hash, entries[k]).None?
    {
      r := EntryFault(hash, entries[i]);
      if r.Some? {
        assert entries[i] in entries;
        return;
      }
    }
    return None;
  }

  method CheckMounts(roots: seq<RootInfo>) returns (r: Option<Fault>)
    ensures r.None? <==> forall k :: k in roots ==> MountOk(k.mount)
    ensures r.Some? ==> exists k :: k in roots && !MountOk(k.mount) && r.value == UnsafeMount(k.mount)
  {
    hide MountOk;
    for i := 0 to |roots|
      invariant forall k :: 0 <= k < i ==> MountOk(roots[k].mount)
    {
      if !MountOk(roots[i].mount) {
        assert roots[i] in roots;
        return Some(UnsafeMount(roots[i].mount));
      }
    }
    return None;
  }

  method CountPrimaries(roots: seq<RootInfo>) returns (count: nat, first: nat)
    ensures count == PrimaryCount(roots)
    ensures count > 0 ==> first < |roots| && roots[first].primary
    ensures count == 1 ==> forall k :: 0 <= k < |roots| && roots[k].primary ==> k == first
  {
    count, first := 0, 0;
    for i := 0 to |roots|
      invariant count == PrimaryCount(roots[..i])
      invariant count > 0 ==> first < i && roots[first].primary
      invariant count == 0 ==> forall k :: 0 <= k < i ==> !roots[k].primary
      invariant count == 1 ==> forall k :: 0 <= k < i && roots[k].primary ==> k == first
    {
      assert roots[..i + 1][..i] == roots[..i];
      if roots[i].primary {
        if count == 0 {
          first := i;
        }
        count := count + 1;
      }
    }
    assert roots[..|roots|] == roots;
  }

  method CheckBaseline(roots: seq<RootInfo>, entries: seq<FileEntry>) returns (r: Option<Fault>)
    ensures r.None? <==> forall e :: e in entries ==> BaselineOk(roots, e)
    ensures r.Some? ==> exists e :: e in entries && !BaselineOk(roots, e) && r.value == NotThePrimarys(e.path)
  {
    for i := 0 to |entries|
      invariant forall k :: 0 <= k < i ==> BaselineOk(roots, entries[k])
    {
      var e := entries[i];
      if e.inBaseline {
        var owner := FindOwner(roots, e.path);
        if owner.None? || !roots[owner.value].primary {
          OneOwner(roots, e.path, owner);
          assert e in entries && !BaselineOk(roots, e);
          return Some(NotThePrimarys(e.path));
        }
      }
    }
    return None;
  }

  lemma OneOwner(roots: seq<RootInfo>, path: Str, owner: Option<nat>)
    requires owner.Some? ==> Owns(roots, path, owner.value)
    requires owner.None? ==> forall k :: 0 <= k < |roots| ==> !UnderMount(path, roots[k].mount)
    ensures forall o: nat :: Owns(roots, path, o) ==> owner == Some(o)
  {
    forall o: nat | Owns(roots, path, o) ensures owner == Some(o) {
      assert UnderMount(path, roots[o].mount);
    }
  }

  /** `validate` finds no fault exactly in an acceptable manifest. */
  method Validate(hash: Str -> Str, lower: Str -> Str, m: Manifest) returns (r: Option<Fault>)
    ensures r.None? <==> Acceptable(hash, lower, m)
    ensures r.None? <==> Right(hash, lower, m)
    ensures r.Some? ==> Present(hash, lower, m, r.value)
  {
    AcceptableIsRight(hash, lower, m);
    MountPresent(hash, lower, m);
    HashPresent(hash, lower, m);
    hide Right, Present, EntryFault, ClashAmong, ClashesIn, MountOk, BaselineOk, RootPreimage, PrimaryCount;
    r := CheckEntries(hash, m.entries);
    if r.Some? {
      ghost var e :| e in m.entries && EntryFault(hash, e) == r;
      EntryFaultPresent(hash, lower, m, e);
      return;
    }
    var clashes := FindCaseConflicts(lower, m.entries);
    if clashes != [] {
      assert clashes[0] in clashes;
      ClashPresent(hash, lower, m, clashes[0]);
      return Some(Fault.CaseConflict(clashes[0].0, clashes[0].1));
    }
    if !MountOk(m.anchorMount) {
      return Some(UnsafeAnchor);
    }
    r := CheckMounts(m.roots);
    if r.Some? {
      return;
    }
    if m.roots != [] {
      var count, first := CountPrimaries(m.roots);
      PrimariesPresent(hash, lower, m, count, first);
      if count != 1 {
        return Some(Primaries(count));
      }
      if m.roots[first].mount != m.anchorMount {
        return Some(AnchorDisagrees);
      }
      r := CheckBaseline(m.roots, m.entries);
      if r.Some? {
        ghost var e :| e in m.entries && !BaselineOk(m.roots, e) && r.value == NotThePrimarys(e.path);
        StrayPresent(hash, lower, m, e);
        return;
      }
    }
    var computed := RootHash(hash, m.entries);
    if computed != m.rootHash {
      return Some(HashMismatch);
    }
    return None;
  }

  // ---- which scans pass ----

  /** Exactly one root of the layout is the primary. */
  ghost predicate OnePrimary(roots: seq<RootMount>, p: nat) {
    p < |roots| && roots[p].primary && forall k :: 0 <= k < |roots| && roots[k].primary ==> k == p
  }

  /** Another scanned root lies below the primary's mount and contains the path. */
  ghost predicate InNestedRoot(roots: seq<RootMount>, scans: seq<Scan>, p: nat, path: Str)
    requires |roots| == |scans| && p < |roots|
  {
    exists k :: 0 <= k < |roots| && k != p && Scanned(roots, scans, k) &&
      UnderMount(path, roots[k].mount) && |roots[k].mount| > |roots[p].mount|
  }

  ghost predicate DistinctMounts(roots: seq<RootMount>) {
    forall i, j :: 0 <= i < j < |roots| ==> roots[i].mount != roots[j].mount
  }

  /** Two mounts of one length over one path are the same mount. */
  lemma SameLengthSameMount(path: Str, a: Str, b: Str)
    requires UnderMount(path, a) && UnderMount(path, b) && |a| == |b|
    ensures a == b
  {
    assert a == path[..|a|] || a == [];
    assert b == path[..|b|] || b == [];
  }

  predicate Tells(info: RootInfo, root: RootMount) {
    info.mount == root.mount && info.primary == root.primary
  }

  ghost predicate Told(infos: seq<RootInfo>, root: RootMount) {
    exists s :: 0 <= s < |infos| && Tells(infos[s], root)
  }

  ghost predicate TellsScanned(info: RootInfo, roots: seq<RootMount>, scans: seq<Scan>)
    requires |roots| == |scans|
  {
    exists r: nat :: r < |roots| && Scanned(roots, scans, r) && Tells(info, roots[r])
  }

  /** The tallies name exactly the scanned roots. */
  ghost predicate InfosName(infos: seq<RootInfo>, roots: seq<RootMount>, scans: seq<Scan>)
    requires |roots| == |scans|
  {
    && (forall r: nat :: r < |roots| && Scanned(roots, scans, r) ==> Told(infos, roots[r]))
    && (forall s :: 0 <= s < |infos| ==> TellsScanned(infos[s], roots, scans))
  }

  /** What the proofs below share. */
  ghost predicate Scene(infos: seq<RootInfo>, roots: seq<RootMount>, scans: seq<Scan>, p: nat) {
    && |roots| == |scans| && OnePrimary(roots, p) && Scanned(roots, scans, p) && DistinctMounts(roots)
    && InfosName(infos, roots, scans)
  }

  /** A root scanned inside the primary takes the paths below it. */
  lemma NestedTakes(infos: seq<RootInfo>, roots: seq<RootMount>, scans: seq<Scan>, p: nat, path: Str, o: nat)
    requires Scene(infos, roots, scans, p) && InNestedRoot(roots, scans, p, path) && Owns(infos, path, o)
    ensures !infos[o].primary
  {
    hide Scanned, UnderMount;
    var k :| 0 <= k < |roots| && k != p && Scanned(roots, scans, k) && UnderMount(path, roots[k].mount) &&
      |roots[k].mount| > |roots[p].mount|;
    assert Told(infos, roots[k]);
    var t :| 0 <= t < |infos| && Tells(infos[t], roots[k]);
    assert |infos[t].mount| <= |infos[o].mount|;
    assert TellsScanned(infos[o], roots, scans);
    var r: nat :| r < |roots| && Scanned(roots, scans, r) && Tells(infos[o], roots[r]);
    assert r != p;
  }

  /** Otherwise no tally over the path has a longer mount, and one as long is the primary's. */
  lemma NoneLonger(infos: seq<RootInfo>, roots: seq<RootMount>, scans: seq<Scan>, p: nat, path: Str, t: nat)
    requires Scene(infos, roots, scans, p) && UnderMount(path, roots[p].mount) && !InNestedRoot(roots, scans, p, path)
    requires t < |infos| && UnderMount(path, infos[t].mount)
    ensures |infos[t].mount| <= |roots[p].mount|
    ensures |infos[t].mount| == |roots[p].mount| ==> Tells(infos[t], roots[p])
  {
    assert TellsScanned(infos[t], roots, scans);
    var r: nat :| r < |roots| && Scanned(roots, scans, r) && Tells(infos[t], roots[r]);
    if r != p && |roots[r].mount| == |roots[p].mount| {
      SameLengthSameMount(path, roots[r].mount, roots[p].mount);
    }
  }

  lemma LastTelling(infos: seq<RootInfo>, root: RootMount) returns (o: nat)
    requires Told(infos, root)
    ensures o < |infos| && Tells(infos[o], root)
    ensures forall k :: o < k < |infos| ==> !Tells(infos[k], root)
  {
    o :| 0 <= o < |infos| && Tells(infos[o], root);
    var i := o;
    while i < |infos|
      invariant o < |infos| && Tells(infos[o], root) && i <= |infos|
      invariant forall k :: o < k < i ==> !Tells(infos[k], root)
    {
      if Tells(infos[i], root) { o := i; }
      i := i + 1;
    }
  }

  lemma PrimaryKeeps(infos: seq<RootInfo>, roots: seq<RootMount>, scans: seq<Scan>, p: nat, path: Str)
    requires Scene(infos, roots, scans, p) && UnderMount(path, roots[p].mount) && !InNestedRoot(roots, scans, p, path)
    ensures PrimaryOwnsPath(infos, path)
  {
    assert Told(infos, roots[p]);
    var o := LastTelling(infos, roots[p]);
    hide UnderMount, InNestedRoot;
    forall k | 0 <= k < |infos| && UnderMount(path, infos[k].mount)
      ensures |infos[k].mount| < |infos[o].mount| || (|infos[k].mount| == |infos[o].mount| && k <= o)
    {
      NoneLonger(infos, roots, scans, p, path, k);
    }
    assert Owns(infos, path, o);
  }

  /** A file below the primary's mount belongs to it exactly when no root scanned inside the
      primary contains it. */
  lemma OwnedByPrimary(infos: seq<RootInfo>, roots: seq<RootMount>, scans: seq<Scan>, p: nat, path: Str)
    requires |roots| == |scans| && p < |roots| && Scene(infos, roots, scans, p) && UnderMount(path, roots[p].mount)
    ensures PrimaryOwnsPath(infos, path) <==> !InNestedRoot(roots, scans, p, path)
  {
    hide Scene, UnderMount;
    if InNestedRoot(roots, scans, p, path) {
      forall o: nat | Owns(infos, path, o) ensures !infos[o].primary {
        NestedTakes(infos, roots, scans, p, path, o);
      }
    } else {
      PrimaryKeeps(infos, roots, scans, p, path);
    }
  }

  // ---- from a scan to its validation ----

  /** Every slot belongs to some scanned root. */
  lemma {:induction false} SlotHasRoot(roots: seq<RootMount>, scans: seq<Scan>, n: nat, s: nat) returns (r: nat)
    requires n <= |roots| == |scans| && s < ScannedBefore(roots, scans, n)
    ensures r < n && Scanned(roots, scans, r) && ScannedBefore(roots, scans, r) == s
  {
    hide Scanned;
    if Scanned(roots, scans, n - 1) && ScannedBefore(roots, scans, n - 1) == s {
      r := n - 1;
    } else {
      r := SlotHasRoot(roots, scans, n - 1, s);
    }
  }

  lemma {:induction false} SlotsIncrease(roots: seq<RootMount>, scans: seq<Scan>, a: nat, b: nat)
    requires a <= b <= |roots| == |scans|
    ensures ScannedBefore(roots, scans, a) <= ScannedBefore(roots, scans, b)
    ensures a < b && Scanned(roots, scans, a) ==> ScannedBefore(roots, scans, a) < ScannedBefore(roots, scans, b)
  {
    hide Scanned;
    if a < b { SlotsIncrease(roots, scans, a, b - 1); }
  }

  lemma TallyOf(infos: seq<RootInfo>, entries: seq<FileEntry>, log: seq<Contribution>, roots: seq<RootMount>,
                scans: seq<Scan>, display: Path -> Str, r: nat)
    requires |roots| == |scans| && ExactTallies(infos, entries, log, roots, scans, display)
    requires r < |roots| && Scanned(roots, scans, r)
    ensures ScannedBefore(roots, scans, r) < |infos| && |infos| == ScannedBefore(roots, scans, |roots|)
    ensures Tells(infos[ScannedBefore(roots, scans, r)], roots[r])
  {
    hide Scanned, ScannedBefore, Provided, SizeOf, TotalFiles, TotalBytes, TotalSize;
  }

  lemma TallyCount(infos: seq<RootInfo>, entries: seq<FileEntry>, log: seq<Contribution>, roots: seq<RootMount>,
                   scans: seq<Scan>, display: Path -> Str)
    requires |roots| == |scans| && ExactTallies(infos, entries, log, roots, scans, display)
    ensures |infos| == ScannedBefore(roots, scans, |roots|)
  {
    hide Scanned, ScannedBefore, Provided, SizeOf, TotalFiles, TotalBytes, TotalSize;
  }

  lemma TalliesName(infos: seq<RootInfo>, entries: seq<FileEntry>, log: seq<Contribution>, roots: seq<RootMount>,
                    scans: seq<Scan>, display: Path -> Str)
    requires |roots| == |scans| && ExactTallies(infos, entries, log, roots, scans, display)
    ensures InfosName(infos, roots, scans)
  {
    hide Scanned, ScannedBefore, ExactTallies, Tells;
    TallyCount(infos, entries, log, roots, scans, display);
    forall r: nat | r < |roots| && Scanned(roots, scans, r) ensures Told(infos, roots[r]) {
      TallyOf(infos, entries, log, roots, scans, display, r);
    }
    forall s | 0 <= s < |infos| ensures TellsScanned(infos[s], roots, scans) {
      var r := SlotHasRoot(roots, scans, |roots|, s);
      TallyOf(infos, entries, log, roots, scans, display, r);
    }
  }

  lemma {:induction false} CountedOnce(infos: seq<RootInfo>, q: nat)
    requires forall k :: 0 <= k < |infos| ==> (infos[k].primary <==> k == q)
    ensures PrimaryCount(infos) == if q < |infos| then 1 else 0
  {
    if infos != [] { CountedOnce(infos[..|infos| - 1], q); }
  }

  lemma OneTallyIsPrimary(infos: seq<RootInfo>, entries: seq<FileEntry>, log: seq<Contribution>, roots: seq<RootMount>,
                          scans: seq<Scan>, display: Path -> Str, p: nat)
    requires |roots| == |scans| && ExactTallies(infos, entries, log, roots, scans, display)
    requires OnePrimary(roots, p) && Scanned(roots, scans, p)
    ensures PrimaryCount(infos) == 1
    ensures exists s :: 0 <= s < |infos| && infos[s].primary && infos[s].mount == roots[p].mount
  {
    var q := ScannedBefore(roots, scans, p);
    hide Scanned, ScannedBefore, ExactTallies;
    TallyOf(infos, entries, log, roots, scans, display, p);
    forall k | 0 <= k < |infos| ensures infos[k].primary <==> k == q {
      var r := SlotHasRoot(roots, scans, |roots|, k);
      TallyOf(infos, entries, log, roots, scans, display, r);
    }
    CountedOnce(infos, q);
  }

  lemma {:induction false} AnchorIsPrimarys(roots: seq<RootMount>, p: nat)
    requires OnePrimary(roots, p)
    ensures AnchorMount(roots) == roots[p].mount
  {
    if !roots[0].primary {
      assert forall k :: 0 <= k < |roots[1..]| ==> roots[1..][k] == roots[k + 1];
      AnchorIsPrimarys(roots[1..], p - 1);
    }
  }

  /** The scanner lists no empty path. */
  ghost predicate NamedPaths(scans: seq<Scan>) {
    forall k, j :: 0 <= k < |scans| && 0 <= j < |scans[k].entries| ==> scans[k].entries[j].path != []
  }

  lemma {:induction false} LogLiesUnder(roots: seq<RootMount>, scans: seq<Scan>, n: nat, c: Contribution)
    requires n <= |roots| == |scans| && NamedPaths(scans) && c in Log(roots, scans, n)
    ensures c.root < n && UnderMount(c.entry.path, roots[c.root].mount)
  {
    hide Skipped;
    if c in Log(roots, scans, n - 1) {
      LogLiesUnder(roots, scans, n - 1, c);
    } else {
      var j :| 0 <= j < |scans[n - 1].entries| && c == ContributionOf(roots, scans, n - 1, j);
      assert scans[n - 1].entries[j].path != [];
    }
  }

  /** No two paths of a returned manifest differ only by case. */
  lemma NoClash(lower: Str -> Str, entries: seq<FileEntry>, log: seq<Contribution>)
    requires PrevailingEntries(entries, log) && !exists a, b :: CaseClash(lower, log, a, b)
    ensures !ClashAmong(lower, entries)
  {
    hide Sorted, DistinctPaths, Clash;
    if i, j :| 0 <= i < j < |entries| && Clash(lower, entries[i].path, entries[j].path) {
      assert entries[i] in entries && entries[j] in entries;
      var c :| Prevails(log, c) && c.entry == entries[i];
      var d :| Prevails(log, d) && d.entry == entries[j];
      assert Viewed(log, entries[i].path) && Viewed(log, entries[j].path);
      assert CaseClash(lower, log, entries[i].path, entries[j].path);
    }
  }

  lemma RootsOkExactly(display: Path -> Str, roots: seq<RootMount>, scans: seq<Scan>, p: nat, m: Manifest)
    requires |roots| == |scans| && p < |roots| && OnePrimary(roots, p) && DistinctMounts(roots) && NamedPaths(scans)
    requires Scanned(roots, scans, p) && m.anchorMount == AnchorMount(roots)
    requires PrevailingEntries(m.entries, Log(roots, scans, |roots|))
    requires ExactTallies(m.roots, m.entries, Log(roots, scans, |roots|), roots, scans, display)
    ensures RootsOk(m) <==> (m.roots != [] ==> forall e :: e in m.entries && e.inBaseline ==>
      !InNestedRoot(roots, scans, p, e.path))
  {
    var log := Log(roots, scans, |roots|);
    hide Scanned, ScannedBefore, Log, PrevailingEntries, ExactTallies, BaselineOk, InNestedRoot, PrimaryCount,
      DistinctMounts, NamedPaths, InfosName, OnePrimary, AnchorMount;
    AnchorIsPrimarys(roots, p);
    OneTallyIsPrimary(m.roots, m.entries, log, roots, scans, display, p);
    BaselineExactly(display, roots, scans, p, m);
  }

  lemma BaselineExactly(display: Path -> Str, roots: seq<RootMount>, scans: seq<Scan>, p: nat, m: Manifest)
    requires |roots| == |scans| && p < |roots| && OnePrimary(roots, p) && DistinctMounts(roots) && NamedPaths(scans)
    requires Scanned(roots, scans, p) && PrevailingEntries(m.entries, Log(roots, scans, |roots|))
    requires ExactTallies(m.roots, m.entries, Log(roots, scans, |roots|), roots, scans, display)
    ensures (forall e :: e in m.entries ==> BaselineOk(m.roots, e)) <==>
      (forall e :: e in m.entries && e.inBaseline ==> !InNestedRoot(roots, scans, p, e.path))
  {
    hide Scanned, Log, PrevailingEntries, ExactTallies, BaselineOk, InNestedRoot, DistinctMounts, NamedPaths,
      InfosName, OnePrimary;
    TalliesName(m.roots, m.entries, Log(roots, scans, |roots|), roots, scans, display);
    forall e | e in m.entries
      ensures BaselineOk(m.roots, e) <==> (e.inBaseline ==> !InNestedRoot(roots, scans, p, e.path))
    {
      BaselineEntry(m.roots, m.entries, roots, scans, p, e);
    }
  }

  lemma ReturnedParts(hash: Str -> Str, display: Path -> Str, roots: seq<RootMount>, scans: seq<Scan>, m: Manifest)
    requires |roots| == |scans| && Returned(hash, display, roots, scans, m)
    ensures PrevailingEntries(m.entries, Log(roots, scans, |roots|))
    ensures m.rootHash == hash(RootPreimage(m.entries)) && m.anchorMount == AnchorMount(roots)
    ensures m.roots == [] || ExactTallies(m.roots, m.entries, Log(roots, scans, |roots|), roots, scans, display)
  {
    hide Log, PrevailingEntries, ExactTallies, RootPreimage, ScannedBefore;
  }

  /** A scan's manifest is acceptable exactly when each entry is by itself, the mounts are safe, and
      no file it takes from the baseline lies in a root that was scanned inside the primary. */
  lemma ScanPassesValidation(hash: Str -> Str, lower: Str -> Str, display: Path -> Str, roots: seq<RootMount>,
                             scans: seq<Scan>, p: nat, m: Manifest)
    requires |roots| == |scans| && p < |roots| && OnePrimary(roots, p) && DistinctMounts(roots) && NamedPaths(scans)
    requires Scanned(roots, scans, p) && Returned(hash, display, roots, scans, m)
    requires !exists a, b :: CaseClash(lower, Log(roots, scans, |roots|), a, b)
    ensures Acceptable(hash, lower, m) <==>
      && (forall e :: e in m.entries ==> EntryFault(hash, e).None?)
      && MountOk(m.anchorMount) && (forall r :: r in m.roots ==> MountOk(r.mount))
      && (m.roots != [] ==> forall e :: e in m.entries && e.inBaseline ==> !InNestedRoot(roots, scans, p, e.path))
  {
    var log := Log(roots, scans, |roots|);
    ReturnedParts(hash, display, roots, scans, m);
    hide Scanned, Log, EntryFault, MountOk, ClashAmong, CaseClash, PrevailingEntries, ExactTallies, RootPreimage,
      InNestedRoot, OnePrimary, DistinctMounts, NamedPaths, Returned;
    NoClash(lower, m.entries, log);
    if m.roots != [] {
      RootsOkExactly(display, roots, scans, p, m);
    }
    hide RootsOk;
  }

  lemma BaselineEntry(infos: seq<RootInfo>, entries: seq<FileEntry>, roots: seq<RootMount>, scans: seq<Scan>, p: nat,
                      e: FileEntry)
    requires |roots| == |scans| && p < |roots| && OnePrimary(roots, p) && DistinctMounts(roots) && NamedPaths(scans)
    requires Scanned(roots, scans, p) && InfosName(infos, roots, scans)
    requires PrevailingEntries(entries, Log(roots, scans, |roots|)) && e in entries
    ensures BaselineOk(infos, e) <==> (e.inBaseline ==> !InNestedRoot(roots, scans, p, e.path))
  {
    if e.inBaseline {
      hide Scanned, Log, InfosName, DistinctMounts, PrevailingEntries, InNestedRoot, UnderMount, PrimaryOwnsPath;
      BaselineIsPrimary(entries, roots, scans, |roots|);
      var c :| Prevails(Log(roots, scans, |roots|), c) && c.entry == e && roots[c.root].primary;
      LogLiesUnder(roots, scans, |roots|, c);
      assert Scene(infos, roots, scans, p);
      OwnedByPrimary(infos, roots, scans, p, e.path);
    }
  }

  /** A computed layout has one primary and no mount twice. */
  lemma LayoutHasOnePrimary(layout: Layout, primary: Path, all: seq<Path>) returns (p: nat)
    requires LaidOut(layout, primary, all) && primary in all && forall q :: q in all ==> PathOk(q)
    ensures OnePrimary(layout.roots, p) && DistinctMounts(layout.roots)
  {
    hide MountFor, Encloses;
    var root :| root in layout.roots && root.path == primary;
    p :| 0 <= p < |layout.roots| && layout.roots[p] == root;
    forall k | 0 <= k < |layout.roots| && layout.roots[k].primary ensures k == p {
      assert layout.roots[k] in layout.roots;
    }
    assert layout.roots[p].primary;
    forall i, j | 0 <= i < j < |layout.roots| ensures layout.roots[i].mount != layout.roots[j].mount {
      MountsDiffer(layout, primary, all, i, j);
    }
  }

  lemma MountsDiffer(layout: Layout, primary: Path, all: seq<Path>, i: nat, j: nat)
    requires LaidOut(layout, primary, all) && (forall q :: q in all ==> PathOk(q)) && i < j < |layout.roots|
    ensures layout.roots[i].mount != layout.roots[j].mount
  {
    hide MountFor, Encloses;
    var a, b := layout.roots[i], layout.roots[j];
    assert a in layout.roots && b in layout.roots && a.path != b.path;
    PathFromMount(layout.anchor, a.path);
    PathFromMount(layout.anchor, b.path);
  }

  lemma PathFromMount(anchor: Path, path: Path)
    requires MountFor(anchor, path).Ok? && PathOk(path)
    ensures path == anchor + Parse(MountFor(anchor, path).value)
  {
    MountParses(anchor, path);
  }
}
