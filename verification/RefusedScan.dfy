/** A scan of two roots that the server refuses (crates/rc-agent/src/multiroot.rs against the check in
    crates/rc-core/src/manifest.rs). */
module RefusedScan {
  import opened Text
  import opened Sorting
  import opened Paths
  import opened Roots
  import opened Manifest
  import opened MultiRoot
  import opened Validation

  const W: Str := [119]
  const V: Str := [118]
  const VX: Str := [118, 47, 120]

  /** A primary root and another one inside it. */
  function TwoRoots(): seq<RootMount> {
    [RootMount([Normal(W)], [], true, false), RootMount([Normal(W), Normal(V)], V, false, true)]
  }

  /** A clean tracked file of the primary below the other root. */
  function Tracked(digest: Str): FileEntry {
    FileEntry(VX, 1, digest, Validation.ENTRY_FILE, false, true, [])
  }

  /** The primary lists that file; the rules of the other root hide it there. */
  function TwoScans(digest: Str): seq<Scan> {
    [Scan([Tracked(digest)], {}), Scan([], {})]
  }

  function View(digest: Str): Contribution {
    Contribution(0, Tracked(digest), false)
  }

  /** Both roots are scanned, and the file is all they list. */
  lemma TwoRootsLog(digest: Str)
    ensures var roots, scans := TwoRoots(), TwoScans(digest);
      && Log(roots, scans, 2) == [View(digest)]
      && Scanned(roots, scans, 0) && Scanned(roots, scans, 1)
      && ScannedBefore(roots, scans, 2) == 2
  {
    var roots, scans := TwoRoots(), TwoScans(digest);
    assert AnchoredEntry(roots[0], scans[0].entries[0]) == Tracked(digest);
    assert ContributionsOf(roots, scans, 0, 1) == [View(digest)];
    assert ContributionsOf(roots, scans, 1, 0) == [];
    assert Log(roots, scans, 0) == [];
    assert Scanned(roots, scans, 0);
    assert Log(roots, scans, 1) == [View(digest)];
    assert CoveredBy([View(digest)]) == {VX};
    assert |MANIFEST_FILE| == 10;
    assert |Anchored(V, MANIFEST_FILE)| == 12;
    assert Anchored(V, MANIFEST_FILE) !in {VX};
    assert Scanned(roots, scans, 1);
    assert ScannedBefore(roots, scans, 1) == 1;
  }

  /** Nothing stops such a scan before it returns. */
  lemma TwoRootsAreReturned(lower: Str -> Str, digest: Str)
    ensures var roots, scans := TwoRoots(), TwoScans(digest); var log := Log(roots, scans, 2);
      && Inputs(roots, scans) && NamedPaths(scans)
      && InRange(log, roots) && AllCompatible(log, roots) && PrimaryScanned(roots, scans)
      && OnePrimary(roots, 0) && DistinctMounts(roots)
      && !exists a, b :: CaseClash(lower, log, a, b)
  {
    TwoRootsLog(digest);
    hide Log, Scanned, ScannedBefore;
  }

  /** Yet what it returns takes the file from the baseline although the file lies in the inner root,
      so the manifest is not acceptable. */
  lemma ReturnedIsRefused(hash: Str -> Str, lower: Str -> Str, display: Path -> Str, digest: Str, m: Manifest)
    requires Returned(hash, display, TwoRoots(), TwoScans(digest), m)
    ensures Tracked(digest) in m.entries && Tracked(digest).inBaseline
    ensures InNestedRoot(TwoRoots(), TwoScans(digest), 0, VX)
    ensures !Acceptable(hash, lower, m)
  {
    var roots, scans := TwoRoots(), TwoScans(digest);
    TwoRootsLog(digest);
    TwoRootsAreReturned(lower, digest);
    assert Prevails(Log(roots, scans, 2), View(digest));
    assert UnderMount(VX, roots[1].mount);
    assert m.roots != [] && Tracked(digest) in m.entries;
    hide Log, Scanned, ScannedBefore, ExactTallies, Returned, Acceptable, EntryFault, MountOk;
    ScanPassesValidation(hash, lower, display, roots, scans, 0, m);
  }

  lemma SafeNames()
    ensures IsSafeRelativePath(VX) && IsSafeRelativePath(V)
  {
    SplitOfPrefix(V, [120], SLASH);
    SplitOfPrefix([120], [], SLASH);
    assert VX == V + [SLASH] + [120];
  }

  lemma OneEntry(entries: seq<FileEntry>, c: Contribution)
    requires PrevailingEntries(entries, [c])
    ensures entries == [c.entry]
  {
    hide Sorted;
    assert Prevails([c], c);
    assert |entries| > 1 ==> entries[0].path != entries[1].path;
    forall k | 0 <= k < |entries| ensures entries[k] == c.entry {
      assert entries[k] in entries;
      var d :| Prevails([c], d) && d.entry == entries[k];
    }
  }

  lemma MountsAreSafe(infos: seq<RootInfo>, scans: seq<Scan>)
    requires |scans| == 2 && InfosName(infos, TwoRoots(), scans)
    ensures forall r :: r in infos ==> MountOk(r.mount)
  {
    var roots := TwoRoots();
    SafeNames();
    hide IsSafeRelativePath, Scanned;
    forall s | 0 <= s < |infos| ensures MountOk(infos[s].mount) {
      assert TellsScanned(infos[s], roots, scans);
      var r: nat :| r < |roots| && Scanned(roots, scans, r) && Tells(infos[s], roots[r]);
    }
  }

  /** Nothing else is wrong with it. */
  lemma OnlyTheBaseline(hash: Str -> Str, display: Path -> Str, digest: Str, m: Manifest)
    requires |digest| == HASH_LENGTH && Returned(hash, display, TwoRoots(), TwoScans(digest), m)
    ensures m.entries == [Tracked(digest)] && EntryFault(hash, Tracked(digest)).None?
    ensures MountOk(m.anchorMount) && forall r :: r in m.roots ==> MountOk(r.mount)
  {
    var roots, scans := TwoRoots(), TwoScans(digest);
    TwoRootsLog(digest);
    SafeNames();
    assert m.anchorMount == [] && ExactTallies(m.roots, m.entries, [View(digest)], roots, scans, display);
    hide Log, IsSafeRelativePath, Scanned, ScannedBefore, ExactTallies, PrevailingEntries, InfosName;
    OneEntry(m.entries, View(digest));
    TalliesName(m.roots, m.entries, [View(digest)], roots, scans, display);
    MountsAreSafe(m.roots, scans);
  }

  /** The whole way: the scan succeeds, and the server refuses its manifest. */
  method ScanThenValidate(hash: Str -> Str, lower: Str -> Str, display: Path -> Str, digest: Str, baseCommit: Str)
    returns (r: Result<Manifest, MultiRoot.ScanError>, fault: Option<Fault>)
    ensures r.Ok? && fault.Some?
  {
    var roots, scans := TwoRoots(), TwoScans(digest);
    TwoRootsAreReturned(lower, digest);
    hide *;
    r := ScanOnce(hash, lower, display, roots, scans, baseCommit, true);
    TwoRootsCount();
    ReturnedIsRefused(hash, lower, display, digest, r.value);
    fault := Validate(hash, lower, r.value);
  }

  lemma TwoRootsCount()
    ensures |TwoRoots()| == 2
  {
  }
}
