/** Merging the scans of several roots into one manifest (crates/rc-agent/src/multiroot.rs). */
module MultiRoot {
  import opened Text
  import opened Sorting
  import opened Paths
  import opened Roots
  import opened Manifest

  const MANIFEST_FILE: Str := Ascii("Cargo.toml")

  /** What the scan of one root found: its entries and which of them only `include` produced. */
  datatype Scan = Scan(entries: seq<FileEntry>, included: set<Str>)

  /** Where a merged entry came from. */
  datatype Provenance = Provenance(root: nat, byInclude: bool)

  datatype MergeState = MergeState(
    entries: seq<FileEntry>,
    owner: map<Str, nat>,
    provenance: map<nat, Provenance>,
    infoAt: map<nat, nat>,
    rootsInfo: seq<RootInfo>,
    covered: set<Str>)

  /** The layout is well formed and each root has a scan without repeated paths, as
      `manifest::build` leaves it. */
  ghost predicate Inputs(roots: seq<RootMount>, scans: seq<Scan>) {
    && |scans| == |roots|
    && forall k :: 0 <= k < |scans| ==> DistinctPaths(scans[k].entries)
  }

  // ---- what the roots contribute ----

  /** One file as one root sees it, at its place below the anchor. */
  datatype Contribution = Contribution(root: nat, entry: FileEntry, byInclude: bool)

  function AnchoredEntry(root: RootMount, e: FileEntry): FileEntry {
    e.(path := Anchored(root.mount, e.path), inBaseline := root.primary && e.inBaseline)
  }

  function ContributionOf(roots: seq<RootMount>, scans: seq<Scan>, index: nat, k: nat): Contribution
    requires index < |roots| == |scans| && k < |scans[index].entries|
  {
    var e := scans[index].entries[k];
    Contribution(index, AnchoredEntry(roots[index], e), e.path in scans[index].included)
  }

  function ContributionsOf(roots: seq<RootMount>, scans: seq<Scan>, index: nat, n: nat): (r: seq<Contribution>)
    requires index < |roots| == |scans| && n <= |scans[index].entries|
    ensures |r| == n
    ensures forall k :: 0 <= k < n ==> r[k] == ContributionOf(roots, scans, index, k)
  {
    if n == 0 then []
    else ContributionsOf(roots, scans, index, n - 1) + [ContributionOf(roots, scans, index, n - 1)]
  }

  /** Paths git itself listed, in the roots merged so far. */
  function CoveredBy(log: seq<Contribution>): set<Str> {
    set c | c in log && !c.byInclude :: c.entry.path
  }

  /** A nested root its enclosing root already covers is not scanned. */
  predicate Skipped(roots: seq<RootMount>, index: nat, covered: set<Str>)
    requires index < |roots|
  {
    roots[index].nested && Enclosing(roots, index).Some? && Anchored(roots[index].mount, MANIFEST_FILE) in covered
  }

  /** Everything the scanned roots among the first `n` contribute, in order. */
  function Log(roots: seq<RootMount>, scans: seq<Scan>, n: nat): seq<Contribution>
    requires n <= |roots| == |scans|
  {
    if n == 0 then []
    else
      var before := Log(roots, scans, n - 1);
      if Skipped(roots, n - 1, CoveredBy(before)) then before
      else before + ContributionsOf(roots, scans, n - 1, |scans[n - 1].entries|)
  }

  predicate Scanned(roots: seq<RootMount>, scans: seq<Scan>, index: nat)
    requires index < |roots| == |scans|
  {
    !Skipped(roots, index, CoveredBy(Log(roots, scans, index)))
  }

  /** How many of the first `n` roots are scanned. */
  function ScannedBefore(roots: seq<RootMount>, scans: seq<Scan>, n: nat): nat
    requires n <= |roots| == |scans|
  {
    if n == 0 then 0 else ScannedBefore(roots, scans, n - 1) + (if Scanned(roots, scans, n - 1) then 1 else 0)
  }

  // ---- tallies ----

  function FilesOf(provenance: map<nat, Provenance>, n: nat, root: nat): nat
    requires forall i :: 0 <= i < n ==> i in provenance
  {
    if n == 0 then 0
    else FilesOf(provenance, n - 1, root) + (if provenance[n - 1].root == root then 1 else 0)
  }

  function BytesOf(entries: seq<FileEntry>, provenance: map<nat, Provenance>, root: nat): nat
    requires forall i :: 0 <= i < |entries| ==> i in provenance
  {
    if entries == [] then 0
    else
      var n := |entries| - 1;
      BytesOf(entries[..n], provenance, root) + (if provenance[n].root == root then entries[n].size else 0)
  }

  // ---- one entry ----

  /** Whether an entry replaces the one already held for its path. */
  predicate Replaces(m: MergeState, roots: seq<RootMount>, index: nat, path: Str)
    requires index < |roots|
  {
    && path in m.owner
    && m.owner[path] in m.provenance
    && m.provenance[m.owner[path]].byInclude
    && m.provenance[m.owner[path]].root < |roots|
    && StartsWith(roots[index].path, roots[m.provenance[m.owner[path]].root].path)
  }

  function Deducted(info: RootInfo, size: nat): RootInfo {
    info.(files := if info.files < 1 then 0 else info.files - 1,
          bytes := if info.bytes < size then 0 else info.bytes - size)
  }

  function MergeEntry(m: MergeState, roots: seq<RootMount>, c: Contribution): MergeState
    requires c.root < |roots|
    requires forall p :: p in m.owner ==> m.owner[p] < |m.entries|
    requires forall r :: r in m.infoAt ==> m.infoAt[r] < |m.rootsInfo|
  {
    var path := c.entry.path;
    var covered := if c.byInclude then m.covered else m.covered + {path};
    if Replaces(m, roots, c.root, path) then
      var at := m.owner[path];
      var from := m.provenance[at].root;
      m.(entries := m.entries[at := c.entry],
         provenance := m.provenance[at := Provenance(c.root, c.byInclude)],
         rootsInfo := if from in m.infoAt
           then m.rootsInfo[m.infoAt[from] := Deducted(m.rootsInfo[m.infoAt[from]], m.entries[at].size)]
           else m.rootsInfo,
         covered := covered)
    else
      m.(entries := m.entries + [c.entry],
         owner := m.owner[path := |m.entries|],
         provenance := m.provenance[|m.entries| := Provenance(c.root, c.byInclude)],
         covered := covered)
  }

  // ---- what the merge keeps ----

  ghost predicate WellShaped(m: MergeState, roots: seq<RootMount>) {
    && (forall i :: i in m.provenance <==> 0 <= i < |m.entries|)
    && (forall i :: i in m.provenance ==> m.provenance[i].root < |roots|)
    && (forall p :: p in m.owner ==> m.owner[p] < |m.entries| && m.entries[m.owner[p]].path == p)
    && (forall i :: 0 <= i < |m.entries| ==> m.entries[i].path in m.owner)
    && (forall r :: r in m.infoAt ==> m.infoAt[r] < |m.rootsInfo|)
    && (forall r, s :: r in m.infoAt && s in m.infoAt && r != s ==> m.infoAt[r] != m.infoAt[s])
  }

  ghost predicate Repeated(m: MergeState, path: Str) {
    exists i, j :: 0 <= i < j < |m.entries| && m.entries[i].path == path && m.entries[j].path == path
  }

  /** `c` is the entry the merge holds for its path. */
  ghost predicate Held(m: MergeState, c: Contribution) {
    && c.entry.path in m.owner
    && m.owner[c.entry.path] < |m.entries|
    && m.owner[c.entry.path] in m.provenance
    && m.entries[m.owner[c.entry.path]] == c.entry
    && m.provenance[m.owner[c.entry.path]] == Provenance(c.root, c.byInclude)
  }

  /** An earlier view of a file may stand behind a later one only if `include` alone produced it
      and its root encloses the later root. */
  predicate MayYield(roots: seq<RootMount>, a: Contribution, later: nat)
    requires a.root < |roots| && later < |roots|
  {
    a.byInclude && a.root < later && roots[a.root].path <= roots[later].path
  }

  ghost predicate Accounted(m: MergeState, roots: seq<RootMount>, c: Contribution)
    requires WellShaped(m, roots) && c.root < |roots|
  {
    && c.entry.path in m.owner
    && (|| Repeated(m, c.entry.path)
        || Held(m, c)
        || MayYield(roots, c, m.provenance[m.owner[c.entry.path]].root))
  }

  ghost predicate InRange(log: seq<Contribution>, roots: seq<RootMount>) {
    forall c :: c in log ==> c.root < |roots|
  }

  ghost predicate SamePath(a: Contribution, b: Contribution) {
    a.entry.path == b.entry.path
  }

  /** Two views of one file are compatible: the later root answers for it. */
  ghost predicate Compatible(roots: seq<RootMount>, a: Contribution, b: Contribution)
    requires a.root < |roots| && b.root < |roots|
  {
    SamePath(a, b) && a.root < b.root ==> MayYield(roots, a, b.root)
  }

  /** Every entry is some root's view of the file. */
  ghost predicate Traced(m: MergeState, log: seq<Contribution>, roots: seq<RootMount>)
    requires WellShaped(m, roots)
  {
    forall i :: 0 <= i < |m.entries| ==>
      Contribution(m.provenance[i].root, m.entries[i], m.provenance[i].byInclude) in log
  }

  ghost predicate AllAccounted(m: MergeState, log: seq<Contribution>, roots: seq<RootMount>)
    requires WellShaped(m, roots) && InRange(log, roots)
  {
    forall c :: c in log ==> Accounted(m, roots, c)
  }

  /** Views that are not compatible leave their path repeated. */
  ghost predicate ConflictsShow(m: MergeState, log: seq<Contribution>, roots: seq<RootMount>)
    requires InRange(log, roots)
  {
    forall a, b :: a in log && b in log ==> Compatible(roots, a, b) || Repeated(m, a.entry.path)
  }

  ghost predicate ConflictOn(log: seq<Contribution>, roots: seq<RootMount>, path: Str)
    requires InRange(log, roots)
  {
    exists a, b :: a in log && b in log && a.entry.path == path && !Compatible(roots, a, b)
  }

  /** A path is repeated only because of such views. */
  ghost predicate RepeatsJustified(m: MergeState, log: seq<Contribution>, roots: seq<RootMount>)
    requires InRange(log, roots)
  {
    forall p :: Repeated(m, p) ==> ConflictOn(log, roots, p)
  }

  ghost predicate Consistent(m: MergeState, log: seq<Contribution>, roots: seq<RootMount>) {
    && WellShaped(m, roots) && InRange(log, roots)
    && Traced(m, log, roots) && AllAccounted(m, log, roots)
    && ConflictsShow(m, log, roots) && RepeatsJustified(m, log, roots)
  }

  /** `c` comes next: its root is the latest and has not listed its path before. */
  ghost predicate Next(log: seq<Contribution>, c: Contribution) {
    forall d :: d in log ==> d.root <= c.root && (d.root == c.root ==> !SamePath(d, c))
  }

  lemma ConflictGrows(log: seq<Contribution>, c: Contribution, roots: seq<RootMount>, path: Str)
    requires InRange(log + [c], roots) && InRange(log, roots) && ConflictOn(log, roots, path)
    ensures ConflictOn(log + [c], roots, path)
  {
    var a, b :| a in log && b in log && a.entry.path == path && !Compatible(roots, a, b);
    assert a in log + [c] && b in log + [c];
  }

  // A replacement.

  lemma ReplacedShape(m: MergeState, roots: seq<RootMount>, c: Contribution)
    requires WellShaped(m, roots) && c.root < |roots| && Replaces(m, roots, c.root, c.entry.path)
    ensures var m' := MergeEntry(m, roots, c);
      && WellShaped(m', roots) && m'.owner == m.owner && c.entry.path in m.owner
      && m'.entries == m.entries[m.owner[c.entry.path] := c.entry]
      && m'.provenance == m.provenance[m.owner[c.entry.path] := Provenance(c.root, c.byInclude)]
  {
  }

  lemma ReplacedRepeats(m: MergeState, roots: seq<RootMount>, c: Contribution, p: Str)
    requires WellShaped(m, roots) && c.root < |roots| && Replaces(m, roots, c.root, c.entry.path)
    ensures Repeated(MergeEntry(m, roots, c), p) <==> Repeated(m, p)
  {
    ReplacedShape(m, roots, c);
    hide MergeEntry, Replaces;
    var m' := MergeEntry(m, roots, c);
    assert forall i :: 0 <= i < |m.entries| ==> m'.entries[i].path == m.entries[i].path;
  }

  /** The entry about to be replaced was included by a root that encloses the later one. */
  lemma ReplacedMayYield(m: MergeState, log: seq<Contribution>, roots: seq<RootMount>, c: Contribution, d: Contribution)
    requires WellShaped(m, roots) && InRange(log, roots) && Traced(m, log, roots)
    requires Next(log, c) && c.root < |roots| && d.root < |roots| && SamePath(d, c)
    requires Replaces(m, roots, c.root, c.entry.path)
    requires Held(m, d) || MayYield(roots, d, m.provenance[m.owner[c.entry.path]].root)
    ensures MayYield(roots, d, c.root)
  {
    var at := m.owner[c.entry.path];
    var held := Contribution(m.provenance[at].root, m.entries[at], m.provenance[at].byInclude);
    assert held in log && SamePath(held, c) && MayYield(roots, held, c.root);
  }

  /** A view of a file that the step did not touch stays accounted for. */
  lemma UntouchedAccounts(m: MergeState, m': MergeState, roots: seq<RootMount>, d: Contribution)
    requires WellShaped(m, roots) && WellShaped(m', roots) && d.root < |roots| && Accounted(m, roots, d)
    requires d.entry.path in m'.owner && m'.owner[d.entry.path] == m.owner[d.entry.path]
    requires m'.entries[m.owner[d.entry.path]] == m.entries[m.owner[d.entry.path]]
    requires m'.provenance[m.owner[d.entry.path]] == m.provenance[m.owner[d.entry.path]]
    requires Repeated(m, d.entry.path) ==> Repeated(m', d.entry.path)
    ensures Accounted(m', roots, d)
  {
    hide Repeated;
  }

  lemma ReplacedAccounts(m: MergeState, log: seq<Contribution>, roots: seq<RootMount>, c: Contribution, d: Contribution)
    requires Consistent(m, log, roots) && Next(log, c) && c.root < |roots| && d in log
    requires Replaces(m, roots, c.root, c.entry.path)
    ensures WellShaped(MergeEntry(m, roots, c), roots)
    ensures Accounted(MergeEntry(m, roots, c), roots, d)
    ensures SamePath(d, c) ==> MayYield(roots, d, c.root) || Repeated(m, c.entry.path)
  {
    hide Repeated, MergeEntry, Replaces, MayYield, Next, ConflictsShow, RepeatsJustified, Traced;
    ReplacedShape(m, roots, c);
    ReplacedRepeats(m, roots, c, d.entry.path);
    assert Accounted(m, roots, d);
    hide AllAccounted;
    if !SamePath(d, c) {
      assert m.owner[d.entry.path] != m.owner[c.entry.path];
      UntouchedAccounts(m, MergeEntry(m, roots, c), roots, d);
    } else if !Repeated(m, c.entry.path) {
      ReplacedMayYield(m, log, roots, c, d);
    }
  }

  lemma ReplacedTraced(m: MergeState, log: seq<Contribution>, roots: seq<RootMount>, c: Contribution)
    requires WellShaped(m, roots) && Traced(m, log, roots) && c.root < |roots|
    requires Replaces(m, roots, c.root, c.entry.path)
    ensures WellShaped(MergeEntry(m, roots, c), roots)
    ensures Traced(MergeEntry(m, roots, c), log + [c], roots)
  {
    ReplacedShape(m, roots, c);
    hide MergeEntry, Replaces;
  }

  lemma ReplacedKeeps(m: MergeState, log: seq<Contribution>, roots: seq<RootMount>, c: Contribution)
    requires Consistent(m, log, roots) && Next(log, c) && c.root < |roots|
    requires Replaces(m, roots, c.root, c.entry.path)
    ensures Consistent(MergeEntry(m, roots, c), log + [c], roots)
  {
    hide MergeEntry, Replaces, Repeated, Accounted, ConflictOn, Compatible;
    var m' := MergeEntry(m, roots, c);
    ReplacedShape(m, roots, c);
    assert Held(m', c);
    ReplacedTraced(m, log, roots, c);
    forall p ensures Repeated(m', p) <==> Repeated(m, p) {
      ReplacedRepeats(m, roots, c, p);
    }
    forall d | d in log
      ensures Accounted(m', roots, d)
      ensures SamePath(d, c) ==> MayYield(roots, d, c.root) || Repeated(m', c.entry.path)
    {
      ReplacedAccounts(m, log, roots, c, d);
    }
    forall p | Repeated(m', p) ensures ConflictOn(log + [c], roots, p) {
      ConflictGrows(log, c, roots, p);
    }
    Assemble(m, m', log, roots, c);
  }

  /** The pieces one merged entry owes, put together. */
  lemma Assemble(m: MergeState, m': MergeState, log: seq<Contribution>, roots: seq<RootMount>, c: Contribution)
    requires InRange(log, roots) && c.root < |roots| && ConflictsShow(m, log, roots) && Next(log, c)
    requires WellShaped(m', roots) && Held(m', c) && Traced(m', log + [c], roots)
    requires forall d :: d in log ==> Accounted(m', roots, d)
    requires forall d :: d in log && SamePath(d, c) ==> MayYield(roots, d, c.root) || Repeated(m', c.entry.path)
    requires forall p :: Repeated(m, p) ==> Repeated(m', p)
    requires InRange(log + [c], roots) && forall p :: Repeated(m', p) ==> ConflictOn(log + [c], roots, p)
    ensures Consistent(m', log + [c], roots)
  {
    assert Accounted(m', roots, c);
    hide Repeated, Accounted, ConflictOn, Held;
    PairsAfter(m, m', log, roots, c);
  }

  lemma PairsAfter(m: MergeState, m': MergeState, log: seq<Contribution>, roots: seq<RootMount>, c: Contribution)
    requires InRange(log, roots) && InRange(log + [c], roots) && ConflictsShow(m, log, roots) && Next(log, c)
    requires forall p :: Repeated(m, p) ==> Repeated(m', p)
    requires forall d :: d in log && SamePath(d, c) ==> MayYield(roots, d, c.root) || Repeated(m', c.entry.path)
    ensures ConflictsShow(m', log + [c], roots)
  {
    forall a, b | a in log + [c] && b in log + [c]
      ensures Compatible(roots, a, b) || Repeated(m', a.entry.path)
    {
      assert a in log || a == c;
      assert b in log || b == c;
    }
  }

  // A new entry.

  lemma AppendedShape(m: MergeState, roots: seq<RootMount>, c: Contribution)
    requires WellShaped(m, roots) && c.root < |roots| && !Replaces(m, roots, c.root, c.entry.path)
    ensures var m' := MergeEntry(m, roots, c);
      && WellShaped(m', roots)
      && m'.entries == m.entries + [c.entry]
      && m'.owner == m.owner[c.entry.path := |m.entries|]
      && m'.provenance == m.provenance[|m.entries| := Provenance(c.root, c.byInclude)]
  {
    hide Replaces;
  }

  lemma AppendedRepeats(m: MergeState, m': MergeState, roots: seq<RootMount>, e: FileEntry, p: Str)
    requires WellShaped(m, roots) && m'.entries == m.entries + [e]
    ensures Repeated(m', p) <==> Repeated(m, p) || (p == e.path && p in m.owner)
  {
    if p == e.path && p in m.owner {
      assert m'.entries[m.owner[p]].path == p && m'.entries[|m.entries|].path == p;
    }
    if Repeated(m, p) {
      var i, j :| 0 <= i < j < |m.entries| && m.entries[i].path == p && m.entries[j].path == p;
      assert m'.entries[i].path == p && m'.entries[j].path == p;
    }
  }

  lemma AppendedAccounts(m: MergeState, log: seq<Contribution>, roots: seq<RootMount>, c: Contribution, d: Contribution)
    requires Consistent(m, log, roots) && Next(log, c) && c.root < |roots| && d in log
    requires !Replaces(m, roots, c.root, c.entry.path)
    ensures WellShaped(MergeEntry(m, roots, c), roots)
    ensures Accounted(MergeEntry(m, roots, c), roots, d)
    ensures SamePath(d, c) ==> Repeated(MergeEntry(m, roots, c), c.entry.path)
  {
    hide Repeated, MergeEntry, Replaces, MayYield, Next, ConflictsShow, RepeatsJustified, Traced;
    AppendedShape(m, roots, c);
    AppendedRepeats(m, MergeEntry(m, roots, c), roots, c.entry, d.entry.path);
    assert Accounted(m, roots, d);
    hide AllAccounted;
    if !SamePath(d, c) {
      UntouchedAccounts(m, MergeEntry(m, roots, c), roots, d);
    }
  }

  lemma AppendedConflicts(m: MergeState, log: seq<Contribution>, roots: seq<RootMount>, c: Contribution, p: Str)
    requires Consistent(m, log, roots) && Next(log, c) && c.root < |roots|
    requires !Replaces(m, roots, c.root, c.entry.path) && Repeated(MergeEntry(m, roots, c), p)
    ensures InRange(log + [c], roots) && ConflictOn(log + [c], roots, p)
  {
    hide *;
    ConsistentForAppend(m, log, roots, c);
    AppendedRepeatsHow(m, roots, c, p);
    if Repeated(m, p) {
      RepeatIsConflict(m, log, roots, p);
      ConflictGrows(log, c, roots, p);
    } else {
      var held := HeldConflicts(m, log, roots, c);
      ConflictShown(log, roots, held, c);
    }
  }

  lemma ConsistentForAppend(m: MergeState, log: seq<Contribution>, roots: seq<RootMount>, c: Contribution)
    requires Consistent(m, log, roots) && c.root < |roots|
    ensures WellShaped(m, roots) && InRange(log, roots) && Traced(m, log, roots) && RepeatsJustified(m, log, roots)
    ensures InRange(log + [c], roots)
  {
    hide WellShaped, Traced, AllAccounted, ConflictsShow, RepeatsJustified;
  }

  lemma AppendedRepeatsHow(m: MergeState, roots: seq<RootMount>, c: Contribution, p: Str)
    requires WellShaped(m, roots) && c.root < |roots|
    requires !Replaces(m, roots, c.root, c.entry.path) && Repeated(MergeEntry(m, roots, c), p)
    ensures Repeated(m, p) || (p == c.entry.path && p in m.owner)
  {
    AppendedShape(m, roots, c);
    hide Repeated, MergeEntry, Replaces;
    AppendedRepeats(m, MergeEntry(m, roots, c), roots, c.entry, p);
  }

  lemma RepeatIsConflict(m: MergeState, log: seq<Contribution>, roots: seq<RootMount>, p: Str)
    requires InRange(log, roots) && RepeatsJustified(m, log, roots) && Repeated(m, p)
    ensures ConflictOn(log, roots, p)
  {
    hide ConflictOn, Repeated, InRange;
  }

  /** The view an appended entry does not replace is not compatible with it. */
  lemma HeldConflicts(m: MergeState, log: seq<Contribution>, roots: seq<RootMount>, c: Contribution)
    returns (held: Contribution)
    requires WellShaped(m, roots) && InRange(log, roots) && Traced(m, log, roots) && Next(log, c) && c.root < |roots|
    requires !Replaces(m, roots, c.root, c.entry.path) && c.entry.path in m.owner
    ensures held in log && SamePath(held, c) && held.root < |roots| && !Compatible(roots, held, c)
  {
    var at := m.owner[c.entry.path];
    held := Contribution(m.provenance[at].root, m.entries[at], m.provenance[at].byInclude);
  }

  lemma ConflictShown(log: seq<Contribution>, roots: seq<RootMount>, held: Contribution, c: Contribution)
    requires InRange(log + [c], roots) && held in log && SamePath(held, c)
    requires held.root < |roots| && c.root < |roots| && !Compatible(roots, held, c)
    ensures ConflictOn(log + [c], roots, c.entry.path)
  {
    hide Compatible;
    assert held in log + [c] && c in log + [c];
  }

  lemma AppendedKeeps(m: MergeState, log: seq<Contribution>, roots: seq<RootMount>, c: Contribution)
    requires Consistent(m, log, roots) && Next(log, c) && c.root < |roots|
    requires !Replaces(m, roots, c.root, c.entry.path)
    ensures Consistent(MergeEntry(m, roots, c), log + [c], roots)
  {
    hide MergeEntry, Replaces, Repeated, Accounted, ConflictOn, Compatible;
    var m' := MergeEntry(m, roots, c);
    AppendedShape(m, roots, c);
    forall p | Repeated(m, p) ensures Repeated(m', p) {
      AppendedRepeats(m, m', roots, c.entry, p);
    }
    forall d | d in log
      ensures Accounted(m', roots, d)
      ensures SamePath(d, c) ==> Repeated(m', c.entry.path)
    {
      AppendedAccounts(m, log, roots, c, d);
    }
    forall p | Repeated(m', p) ensures ConflictOn(log + [c], roots, p) {
      AppendedConflicts(m, log, roots, c, p);
    }
    Assemble(m, m', log, roots, c);
  }

  lemma MergeKeeps(m: MergeState, log: seq<Contribution>, roots: seq<RootMount>, c: Contribution)
    requires Consistent(m, log, roots) && Next(log, c) && c.root < |roots|
    ensures Consistent(MergeEntry(m, roots, c), log + [c], roots)
  {
    if Replaces(m, roots, c.root, c.entry.path) {
      ReplacedKeeps(m, log, roots, c);
    } else {
      AppendedKeeps(m, log, roots, c);
    }
  }

  // ---- tallies ----

  ghost predicate HasProvenance(m: MergeState) {
    forall i :: i in m.provenance <==> 0 <= i < |m.entries|
  }

  /** A finished root's tally is the count and the size of the entries it provides now. */
  ghost predicate Tallied(m: MergeState, root: nat)
    requires HasProvenance(m)
  {
    root in m.infoAt && m.infoAt[root] < |m.rootsInfo| ==>
      && m.rootsInfo[m.infoAt[root]].files == FilesOf(m.provenance, |m.entries|, root)
      && m.rootsInfo[m.infoAt[root]].bytes == BytesOf(m.entries, m.provenance, root)
  }

  lemma {:induction false} FilesAfterUpdate(prov: map<nat, Provenance>, n: nat, at: nat, p: Provenance, root: nat)
    requires forall i :: 0 <= i < n ==> i in prov
    requires at in prov
    ensures FilesOf(prov[at := p], n, root) == FilesOf(prov, n, root) +
      (if at < n then (if p.root == root then 1 else 0) - (if prov[at].root == root then 1 else 0) else 0)
  {
    if n > 0 { FilesAfterUpdate(prov, n - 1, at, p, root); }
  }

  lemma {:induction false} BytesAfterUpdate(entries: seq<FileEntry>, prov: map<nat, Provenance>, at: nat,
                                            e: FileEntry, p: Provenance, root: nat)
    requires forall i :: 0 <= i < |entries| ==> i in prov
    requires at < |entries|
    ensures BytesOf(entries[at := e], prov[at := p], root) == BytesOf(entries, prov, root) +
      (if p.root == root then e.size else 0) - (if prov[at].root == root then entries[at].size else 0)
  {
    var n := |entries| - 1;
    if at < n {
      assert entries[at := e][..n] == entries[..n][at := e];
      BytesAfterUpdate(entries[..n], prov, at, e, p, root);
    } else {
      assert entries[at := e][..n] == entries[..n];
      BytesIgnoresBeyond(entries[..n], prov, n, p, root);
    }
  }

  lemma {:induction false} BytesIgnoresBeyond(entries: seq<FileEntry>, prov: map<nat, Provenance>, at: nat,
                                              p: Provenance, root: nat)
    requires forall i :: 0 <= i < |entries| ==> i in prov
    requires |entries| <= at
    ensures BytesOf(entries, prov[at := p], root) == BytesOf(entries, prov, root)
  {
    if entries != [] { BytesIgnoresBeyond(entries[..|entries| - 1], prov, at, p, root); }
  }

  lemma {:induction false} FilesIgnoresBeyond(n: nat, prov: map<nat, Provenance>, at: nat, p: Provenance, root: nat)
    requires forall i :: 0 <= i < n ==> i in prov
    requires n <= at
    ensures FilesOf(prov[at := p], n, root) == FilesOf(prov, n, root)
  {
    if n > 0 { FilesIgnoresBeyond(n - 1, prov, at, p, root); }
  }

  /** The root that provides an entry has it in its tally: deducting it cannot saturate. */
  lemma {:induction false} TallyCoversEntry(entries: seq<FileEntry>, prov: map<nat, Provenance>, at: nat)
    requires forall i :: 0 <= i < |entries| ==> i in prov
    requires at < |entries|
    ensures FilesOf(prov, |entries|, prov[at].root) >= 1
    ensures BytesOf(entries, prov, prov[at].root) >= entries[at].size
  {
    var n := |entries| - 1;
    if at < n {
      TallyCoversEntry(entries[..n], prov, at);
    }
  }

  /** Merging one entry of a root that is not finished yet keeps every finished tally exact and
      adds exactly that entry to the current root's. */
  lemma MergeTallies(m: MergeState, roots: seq<RootMount>, c: Contribution, root: nat)
    requires WellShaped(m, roots) && c.root < |roots| && c.root !in m.infoAt
    requires Tallied(m, root)
    requires Replaces(m, roots, c.root, c.entry.path) ==> m.provenance[m.owner[c.entry.path]].root != c.root
    ensures var m' := MergeEntry(m, roots, c);
      && HasProvenance(m') && Tallied(m', root)
      && FilesOf(m'.provenance, |m'.entries|, c.root) == FilesOf(m.provenance, |m.entries|, c.root) + 1
      && BytesOf(m'.entries, m'.provenance, c.root) == BytesOf(m.entries, m.provenance, c.root) + c.entry.size
  {
    var p := Provenance(c.root, c.byInclude);
    if Replaces(m, roots, c.root, c.entry.path) {
      var at := m.owner[c.entry.path];
      TallyCoversEntry(m.entries, m.provenance, at);
      FilesAfterUpdate(m.provenance, |m.entries|, at, p, root);
      FilesAfterUpdate(m.provenance, |m.entries|, at, p, c.root);
      BytesAfterUpdate(m.entries, m.provenance, at, c.entry, p, root);
      BytesAfterUpdate(m.entries, m.provenance, at, c.entry, p, c.root);
    } else {
      var n := |m.entries|;
      assert (m.entries + [c.entry])[..n] == m.entries;
      FilesIgnoresBeyond(n, m.provenance, n, p, root);
      FilesIgnoresBeyond(n, m.provenance, n, p, c.root);
      BytesIgnoresBeyond(m.entries, m.provenance, n, p, root);
      BytesIgnoresBeyond(m.entries, m.provenance, n, p, c.root);
    }
  }

  // ---- the merge loop ----

  lemma {:induction false} LogIsEarlier(roots: seq<RootMount>, scans: seq<Scan>, n: nat)
    requires n <= |roots| == |scans|
    ensures forall d :: d in Log(roots, scans, n) ==> d.root < n
  {
    if n > 0 { LogIsEarlier(roots, scans, n - 1); }
  }

  /** The log while the scan of root `n` is being merged, `k` entries in. */
  function LogWithin(roots: seq<RootMount>, scans: seq<Scan>, n: nat, k: nat): seq<Contribution>
    requires n < |roots| == |scans| && k <= |scans[n].entries|
  {
    Log(roots, scans, n) + ContributionsOf(roots, scans, n, k)
  }

  lemma LogWithinGrows(roots: seq<RootMount>, scans: seq<Scan>, n: nat, k: nat)
    requires Inputs(roots, scans) && n < |roots| && k < |scans[n].entries|
    ensures LogWithin(roots, scans, n, k + 1) ==
      LogWithin(roots, scans, n, k) + [ContributionOf(roots, scans, n, k)]
    ensures Next(LogWithin(roots, scans, n, k), ContributionOf(roots, scans, n, k))
  {
    LogIsEarlier(roots, scans, n);
    var c := ContributionOf(roots, scans, n, k);
    var log := LogWithin(roots, scans, n, k);
    forall d | d in log ensures d.root <= c.root && (d.root == c.root ==> !SamePath(d, c)) {
      if d !in Log(roots, scans, n) {
        var j :| 0 <= j < k && d == ContributionOf(roots, scans, n, j);
        assert scans[n].entries[j].path != scans[n].entries[k].path;
        if SamePath(d, c) {
          AnchoredInjective(roots[n].mount, scans[n].entries[j].path, scans[n].entries[k].path);
        }
      }
    }
  }

  lemma CoveredGrows(log: seq<Contribution>, c: Contribution)
    ensures CoveredBy(log + [c]) == CoveredBy(log) + (if c.byInclude then {} else {c.entry.path})
  {
    var bigger := log + [c];
    assert c in bigger;
    assert forall d :: d in bigger <==> d in log || d == c;
    assert forall p :: p in CoveredBy(bigger) <==> exists d :: d in bigger && !d.byInclude && d.entry.path == p;
    assert forall p :: p in CoveredBy(log) <==> exists d :: d in log && !d.byInclude && d.entry.path == p;
  }

  /** A tally entry names the root it is about. */
  predicate Names(info: RootInfo, root: RootMount, display: Path -> Str) {
    info.mount == root.mount && info.localPath == display(root.path) && info.primary == root.primary
  }

  /** The finished roots: which they are, how they are described, and in which order. */
  ghost predicate InfosFor(m: MergeState, roots: seq<RootMount>, scans: seq<Scan>, display: Path -> Str, n: nat)
    requires n <= |roots| == |scans|
  {
    && (forall r: nat :: r in m.infoAt <==> r < n && Scanned(roots, scans, r))
    && (forall r :: r in m.infoAt ==> m.infoAt[r] == ScannedBefore(roots, scans, r))
    && (forall r :: r in m.infoAt ==> m.infoAt[r] < |m.rootsInfo| && Names(m.rootsInfo[m.infoAt[r]], roots[r], display))
    && |m.rootsInfo| == ScannedBefore(roots, scans, n)
  }

  /** The state while root `n` is being merged; `log` is everything merged so far. */
  ghost predicate Midway(m: MergeState, log: seq<Contribution>, roots: seq<RootMount>, scans: seq<Scan>,
                         display: Path -> Str, n: nat)
    requires n <= |roots| == |scans|
  {
    && Consistent(m, log, roots)
    && m.covered == CoveredBy(log)
    && InfosFor(m, roots, scans, display, n)
    && HasProvenance(m) && (forall r: nat :: Tallied(m, r))
    && (forall i :: i in m.provenance ==> m.provenance[i].root in m.infoAt || m.provenance[i].root == n)
  }

  /** The state between two roots. */
  ghost predicate Merged(m: MergeState, roots: seq<RootMount>, scans: seq<Scan>, display: Path -> Str, n: nat)
    requires n <= |roots| == |scans|
  {
    && Midway(m, Log(roots, scans, n), roots, scans, display, n)
    && (forall i :: i in m.provenance ==> m.provenance[i].root in m.infoAt)
  }

  lemma MergeEntryFrame(m: MergeState, roots: seq<RootMount>, c: Contribution)
    requires WellShaped(m, roots) && c.root < |roots|
    ensures var m' := MergeEntry(m, roots, c);
      && m'.infoAt == m.infoAt && |m'.rootsInfo| == |m.rootsInfo|
      && m'.covered == m.covered + (if c.byInclude then {} else {c.entry.path})
      && forall k :: 0 <= k < |m.rootsInfo| ==>
        m'.rootsInfo[k] == m.rootsInfo[k].(files := m'.rootsInfo[k].files, bytes := m'.rootsInfo[k].bytes)
  {
    hide Replaces;
  }

  /** A replaced entry's tally shrinks, and nothing else about the finished roots changes. */
  lemma InfosSurvive(m: MergeState, roots: seq<RootMount>, scans: seq<Scan>, display: Path -> Str, n: nat,
                     c: Contribution)
    requires WellShaped(m, roots) && n <= |roots| == |scans| && InfosFor(m, roots, scans, display, n) &&
      c.root < |roots|
    ensures InfosFor(MergeEntry(m, roots, c), roots, scans, display, n)
  {
    hide Scanned, MergeEntry, WellShaped, ScannedBefore;
    MergeEntryFrame(m, roots, c);
  }

  lemma ProvenanceSurvives(m: MergeState, roots: seq<RootMount>, c: Contribution)
    requires WellShaped(m, roots) && c.root < |roots|
    ensures var p := MergeEntry(m, roots, c).provenance;
      forall i :: i in p ==> p[i] == Provenance(c.root, c.byInclude) || (i in m.provenance && p[i] == m.provenance[i])
  {
    hide Replaces;
  }

  /** An entry never replaces one of its own root. */
  lemma ReplacesAnotherRoot(m: MergeState, log: seq<Contribution>, roots: seq<RootMount>, c: Contribution)
    requires Consistent(m, log, roots) && Next(log, c) && c.root < |roots|
    requires Replaces(m, roots, c.root, c.entry.path)
    ensures m.provenance[m.owner[c.entry.path]].root != c.root
  {
    var at := m.owner[c.entry.path];
    assert Contribution(m.provenance[at].root, m.entries[at], m.provenance[at].byInclude) in log;
  }

  lemma TalliesStep(m: MergeState, log: seq<Contribution>, roots: seq<RootMount>, c: Contribution)
    requires Consistent(m, log, roots) && Next(log, c) && c.root < |roots| && c.root !in m.infoAt
    requires HasProvenance(m) && forall r: nat :: Tallied(m, r)
    ensures var m' := MergeEntry(m, roots, c);
      && HasProvenance(m') && (forall r: nat :: Tallied(m', r))
      && FilesOf(m'.provenance, |m'.entries|, c.root) == FilesOf(m.provenance, |m.entries|, c.root) + 1
      && BytesOf(m'.entries, m'.provenance, c.root) == BytesOf(m.entries, m.provenance, c.root) + c.entry.size
  {
    if Replaces(m, roots, c.root, c.entry.path) { ReplacesAnotherRoot(m, log, roots, c); }
    hide MergeEntry, Replaces, Tallied;
    MergeTallies(m, roots, c, c.root);
    forall r: nat ensures Tallied(MergeEntry(m, roots, c), r) {
      MergeTallies(m, roots, c, r);
    }
  }

  lemma ConsistentShape(m: MergeState, log: seq<Contribution>, roots: seq<RootMount>)
    requires Consistent(m, log, roots)
    ensures WellShaped(m, roots) && InRange(log, roots)
  {
  }

  lemma MidwayParts(m: MergeState, log: seq<Contribution>, roots: seq<RootMount>, scans: seq<Scan>,
                    display: Path -> Str, n: nat)
    requires n <= |roots| == |scans| && Midway(m, log, roots, scans, display, n)
    ensures Consistent(m, log, roots) && m.covered == CoveredBy(log) && InfosFor(m, roots, scans, display, n)
    ensures HasProvenance(m) && forall r: nat :: Tallied(m, r)
    ensures forall i :: i in m.provenance ==> m.provenance[i].root in m.infoAt || m.provenance[i].root == n
  {
    hide Consistent, CoveredBy, InfosFor, HasProvenance, Tallied;
  }

  lemma MergedParts(m: MergeState, roots: seq<RootMount>, scans: seq<Scan>, display: Path -> Str, n: nat)
    requires n <= |roots| == |scans| && Merged(m, roots, scans, display, n)
    ensures Midway(m, Log(roots, scans, n), roots, scans, display, n)
    ensures m.covered == CoveredBy(Log(roots, scans, n))
    ensures forall i :: i in m.provenance ==> m.provenance[i].root in m.infoAt
  {
    hide Consistent, CoveredBy, InfosFor, HasProvenance, Tallied, Log;
  }

  lemma MergedFrom(m: MergeState, roots: seq<RootMount>, scans: seq<Scan>, display: Path -> Str, n: nat)
    requires n <= |roots| == |scans| && Consistent(m, Log(roots, scans, n), roots)
    requires m.covered == CoveredBy(Log(roots, scans, n)) && InfosFor(m, roots, scans, display, n)
    requires HasProvenance(m) && forall r: nat :: Tallied(m, r)
    requires forall i :: i in m.provenance ==> m.provenance[i].root in m.infoAt
    ensures Merged(m, roots, scans, display, n)
  {
    hide Consistent, CoveredBy, InfosFor, HasProvenance, Tallied, Log;
  }

  lemma LogNext(roots: seq<RootMount>, scans: seq<Scan>, n: nat)
    requires n < |roots| == |scans|
    ensures Log(roots, scans, n + 1) == if Scanned(roots, scans, n)
      then LogWithin(roots, scans, n, |scans[n].entries|) else Log(roots, scans, n)
  {
    hide Skipped, CoveredBy, ContributionsOf;
  }

  lemma MidwayStep(m: MergeState, roots: seq<RootMount>, scans: seq<Scan>, display: Path -> Str, n: nat, k: nat)
    requires Inputs(roots, scans) && n < |roots| && k < |scans[n].entries|
    requires Midway(m, LogWithin(roots, scans, n, k), roots, scans, display, n)
    ensures ContributionOf(roots, scans, n, k).root == n && WellShaped(m, roots) && HasProvenance(m)
    ensures var c := ContributionOf(roots, scans, n, k); var m' := MergeEntry(m, roots, c);
      && Midway(m', LogWithin(roots, scans, n, k + 1), roots, scans, display, n)
      && FilesOf(m'.provenance, |m'.entries|, n) == FilesOf(m.provenance, |m.entries|, n) + 1
      && BytesOf(m'.entries, m'.provenance, n) == BytesOf(m.entries, m.provenance, n) + c.entry.size
  {
    hide Consistent, Tallied, MergeEntry, LogWithin, CoveredBy, Next, Scanned, Names;
    var c := ContributionOf(roots, scans, n, k);
    var log := LogWithin(roots, scans, n, k);
    ConsistentShape(m, log, roots);
    LogWithinGrows(roots, scans, n, k);
    MergeKeeps(m, log, roots, c);
    CoveredGrows(log, c);
    MergeEntryFrame(m, roots, c);
    InfosSurvive(m, roots, scans, display, n, c);
    ProvenanceSurvives(m, roots, c);
    TalliesStep(m, log, roots, c);
  }

  lemma {:induction false} NoneProvided(m: MergeState, root: nat, n: nat)
    requires HasProvenance(m) && n <= |m.entries|
    requires forall i :: i in m.provenance ==> m.provenance[i].root != root
    ensures FilesOf(m.provenance, n, root) == 0
    ensures BytesOf(m.entries[..n], m.provenance, root) == 0
  {
    if n > 0 {
      NoneProvided(m, root, n - 1);
      assert m.entries[..n][..n - 1] == m.entries[..n - 1];
    }
  }

  lemma RootStarts(m: MergeState, roots: seq<RootMount>, scans: seq<Scan>, display: Path -> Str, n: nat)
    requires n < |roots| == |scans| && Merged(m, roots, scans, display, n)
    ensures LogWithin(roots, scans, n, 0) == Log(roots, scans, n)
    ensures Midway(m, LogWithin(roots, scans, n, 0), roots, scans, display, n)
    ensures FilesOf(m.provenance, |m.entries|, n) == 0 && BytesOf(m.entries, m.provenance, n) == 0
  {
    hide Consistent, Tallied, Scanned, Names, CoveredBy;
    assert Log(roots, scans, n) + [] == Log(roots, scans, n);
    NoneProvided(m, n, |m.entries|);
    assert m.entries[..|m.entries|] == m.entries;
  }

  /** A root that has been scanned in full gets its tally. */
  function Finished(m: MergeState, root: RootMount, display: Path -> Str, n: nat, files: nat, bytes: nat): MergeState {
    m.(infoAt := m.infoAt[n := |m.rootsInfo|],
       rootsInfo := m.rootsInfo + [RootInfo(root.mount, display(root.path), root.primary, bytes, files)])
  }

  lemma FinishedStaysConsistent(m: MergeState, log: seq<Contribution>, roots: seq<RootMount>, root: RootMount,
                                display: Path -> Str, n: nat, files: nat, bytes: nat)
    requires Consistent(m, log, roots)
    ensures Consistent(Finished(m, root, display, n, files, bytes), log, roots)
  {
    var m' := Finished(m, root, display, n, files, bytes);
    assert WellShaped(m', roots) by { hide Traced, AllAccounted, ConflictsShow, RepeatsJustified; }
    hide WellShaped;
    assert Traced(m', log, roots) by { hide AllAccounted, ConflictsShow, RepeatsJustified; }
    assert forall p :: Repeated(m', p) <==> Repeated(m, p);
    hide Compatible, ConflictOn, Traced, Repeated;
    forall c | c in log ensures Accounted(m', roots, c) {
      assert Accounted(m, roots, c);
    }
  }

  lemma FinishedInfos(m: MergeState, roots: seq<RootMount>, scans: seq<Scan>, display: Path -> Str, n: nat,
                      files: nat, bytes: nat)
    requires n < |roots| == |scans| && InfosFor(m, roots, scans, display, n) && Scanned(roots, scans, n)
    ensures InfosFor(Finished(m, roots[n], display, n, files, bytes), roots, scans, display, n + 1)
  {
    hide Scanned;
  }

  lemma FinishedTallies(m: MergeState, roots: seq<RootMount>, scans: seq<Scan>, display: Path -> Str, n: nat,
                        files: nat, bytes: nat)
    requires n < |roots| == |scans| && InfosFor(m, roots, scans, display, n)
    requires HasProvenance(m) && forall r: nat :: Tallied(m, r)
    requires files == FilesOf(m.provenance, |m.entries|, n) && bytes == BytesOf(m.entries, m.provenance, n)
    ensures var m' := Finished(m, roots[n], display, n, files, bytes);
      HasProvenance(m') && forall r: nat :: Tallied(m', r)
  {
    hide Scanned, Names;
    forall r: nat ensures Tallied(Finished(m, roots[n], display, n, files, bytes), r) {
      assert Tallied(m, r);
    }
  }

  lemma FinishedFrame(m: MergeState, root: RootMount, display: Path -> Str, n: nat, files: nat, bytes: nat)
    ensures var m' := Finished(m, root, display, n, files, bytes);
      m'.covered == m.covered && m'.provenance == m.provenance && m'.infoAt.Keys == m.infoAt.Keys + {n}
  {
  }

  lemma InfosSkip(m: MergeState, roots: seq<RootMount>, scans: seq<Scan>, display: Path -> Str, n: nat)
    requires n < |roots| == |scans| && InfosFor(m, roots, scans, display, n) && !Scanned(roots, scans, n)
    ensures InfosFor(m, roots, scans, display, n + 1)
  {
    hide Scanned;
  }

  lemma RootFinishes(m: MergeState, roots: seq<RootMount>, scans: seq<Scan>, display: Path -> Str, n: nat,
                     files: nat, bytes: nat)
    requires n < |roots| == |scans| && Scanned(roots, scans, n)
    requires Midway(m, LogWithin(roots, scans, n, |scans[n].entries|), roots, scans, display, n)
    requires files == FilesOf(m.provenance, |m.entries|, n) && bytes == BytesOf(m.entries, m.provenance, n)
    ensures Merged(Finished(m, roots[n], display, n, files, bytes), roots, scans, display, n + 1)
  {
    hide *;
    var log := Log(roots, scans, n + 1);
    LogNext(roots, scans, n);
    MidwayParts(m, log, roots, scans, display, n);
    FinishedFrame(m, roots[n], display, n, files, bytes);
    FinishedStaysConsistent(m, log, roots, roots[n], display, n, files, bytes);
    FinishedInfos(m, roots, scans, display, n, files, bytes);
    FinishedTallies(m, roots, scans, display, n, files, bytes);
    MergedFrom(Finished(m, roots[n], display, n, files, bytes), roots, scans, display, n + 1);
  }

  lemma RootSkipped(m: MergeState, roots: seq<RootMount>, scans: seq<Scan>, display: Path -> Str, n: nat)
    requires n < |roots| == |scans| && !Scanned(roots, scans, n)
    requires Merged(m, roots, scans, display, n)
    ensures Merged(m, roots, scans, display, n + 1)
  {
    hide *;
    LogNext(roots, scans, n);
    MergedParts(m, roots, scans, display, n);
    MidwayParts(m, Log(roots, scans, n), roots, scans, display, n);
    InfosSkip(m, roots, scans, display, n);
    MergedFrom(m, roots, scans, display, n + 1);
  }

  /** The entry held for the place is there on the word of `include` alone, in a root around this one. */
  ghost predicate Yields(m: MergeState, roots: seq<RootMount>, index: nat, place: Str)
    requires index < |roots| && WellShaped(m, roots)
  {
    && place in m.owner
    && var from := m.provenance[m.owner[place]];
    && from.byInclude && roots[from.root].path <= roots[index].path
  }

  /** The place now holds this entry, in the old one's stead where that yields; no other entry changes. */
  ghost predicate Stepped(r: MergeState, m: MergeState, roots: seq<RootMount>, index: nat, e: FileEntry,
                          byInclude: bool)
    requires index < |roots| && WellShaped(m, roots)
  {
    var place := Place(roots[index].mount, e.path);
    && place in r.owner && r.owner[place] < |r.entries| && r.owner[place] in r.provenance
    && Moved(r.entries[r.owner[place]], roots[index], e)
    && r.provenance[r.owner[place]] == Provenance(index, byInclude)
    && r.covered == m.covered + (if byInclude then {} else {place})
    && if Yields(m, roots, index, place) then
         |r.entries| == |m.entries| && r.owner == m.owner &&
         forall i :: 0 <= i < |m.entries| && i != m.owner[place] ==> r.entries[i] == m.entries[i]
       else
         |r.entries| == |m.entries| + 1 && r.owner == m.owner[place := |m.entries|] && m.entries <= r.entries
  }

  lemma EntryIsStepped(m: MergeState, roots: seq<RootMount>, index: nat, e: FileEntry, byInclude: bool)
    requires index < |roots| && WellShaped(m, roots)
    ensures Stepped(MergeEntry(m, roots, Contribution(index, AnchoredEntry(roots[index], e), byInclude)), m, roots,
                    index, e, byInclude)
  {
    hide Anchored, Place;
    AnchoredIsPlace(roots[index].mount, e.path);
    assert Replaces(m, roots, index, Place(roots[index].mount, e.path)) <==>
      Yields(m, roots, index, Place(roots[index].mount, e.path));
  }

  /** One pass of the inner loop. */
  method MergeOne(m: MergeState, roots: seq<RootMount>, index: nat, e: FileEntry, byInclude: bool)
    returns (r: MergeState)
    requires index < |roots| && WellShaped(m, roots)
    ensures r == MergeEntry(m, roots, Contribution(index, AnchoredEntry(roots[index], e), byInclude))
    ensures Stepped(r, m, roots, index, e, byInclude)
  {
    EntryIsStepped(m, roots, index, e, byInclude);
    hide Stepped;
    r := m;
    var root := roots[index];
    var path := Anchored(root.mount, e.path);
    if !byInclude {
      r := r.(covered := r.covered + {path});
    }
    if path in r.owner {
      var at := r.owner[path];
      var from := r.provenance[at];
      if from.byInclude && StartsWith(root.path, roots[from.root].path) {
        if from.root in r.infoAt {
          var slot := r.infoAt[from.root];
          r := r.(rootsInfo := r.rootsInfo[slot := Deducted(r.rootsInfo[slot], r.entries[at].size)]);
        }
        r := r.(entries := r.entries[at := e.(path := path, inBaseline := root.primary && e.inBaseline)]);
        r := r.(provenance := r.provenance[at := Provenance(index, byInclude)]);
        return;
      }
    }
    r := r.(owner := r.owner[path := |r.entries|]);
    r := r.(provenance := r.provenance[|r.entries| := Provenance(index, byInclude)]);
    r := r.(entries := r.entries + [e.(path := path, inBaseline := root.primary && e.inBaseline)]);
  }

  method MergeRoot(m: MergeState, roots: seq<RootMount>, scans: seq<Scan>, display: Path -> Str, n: nat)
    returns (r: MergeState)
    requires Inputs(roots, scans) && n < |roots| && Scanned(roots, scans, n)
    requires Merged(m, roots, scans, display, n)
    ensures Merged(r, roots, scans, display, n + 1)
  {
    hide Merged, Midway, Scanned, LogWithin, MergeEntry, Stepped;
    RootStarts(m, roots, scans, display, n);
    MidwayParts(m, LogWithin(roots, scans, n, 0), roots, scans, display, n);
    r := m;
    var bytes, files := 0, 0;
    var scan := scans[n];
    for k := 0 to |scan.entries|
      invariant Midway(r, LogWithin(roots, scans, n, k), roots, scans, display, n)
      invariant HasProvenance(r)
      invariant files == FilesOf(r.provenance, |r.entries|, n) && bytes == BytesOf(r.entries, r.provenance, n)
    {
      MidwayStep(r, roots, scans, display, n, k);
      bytes := bytes + scan.entries[k].size;
      files := files + 1;
      r := MergeOne(r, roots, n, scan.entries[k], scan.entries[k].path in scan.included);
      MidwayParts(r, LogWithin(roots, scans, n, k + 1), roots, scans, display, n);
    }
    RootFinishes(r, roots, scans, display, n, files, bytes);
    r := r.(infoAt := r.infoAt[n := |r.rootsInfo|]);
    var info := RootInfo(roots[n].mount, display(roots[n].path), roots[n].primary, bytes, files);
    r := r.(rootsInfo := r.rootsInfo + [info]);
  }

  lemma NothingMerged(roots: seq<RootMount>, scans: seq<Scan>, display: Path -> Str)
    requires Inputs(roots, scans)
    ensures Merged(MergeState([], map[], map[], map[], [], {}), roots, scans, display, 0)
  {
    hide Accounted, Compatible, ConflictOn, Scanned, Names;
  }

  method MergeRoots(roots: seq<RootMount>, scans: seq<Scan>, display: Path -> Str) returns (m: MergeState)
    requires Inputs(roots, scans)
    ensures Merged(m, roots, scans, display, |roots|)
  {
    hide Merged, Consistent, InfosFor, Tallied, HasProvenance, CoveredBy, Log;
    m := MergeState([], map[], map[], map[], [], {});
    NothingMerged(roots, scans, display);
    for n := 0 to |roots|
      invariant Merged(m, roots, scans, display, n)
    {
      var skip := false;
      MergedParts(m, roots, scans, display, n);
      if roots[n].nested {
        var manifestPath := Anchored(roots[n].mount, MANIFEST_FILE);
        skip := Enclosing(roots, n).Some? && manifestPath in m.covered;
      }
      if skip {
        RootSkipped(m, roots, scans, display, n);
      } else {
        m := MergeRoot(m, roots, scans, display, n);
      }
    }
  }

  // ---- what the merge means ----

  /** Every two views of one file agree on who answers for it. */
  ghost predicate AllCompatible(log: seq<Contribution>, roots: seq<RootMount>)
    requires InRange(log, roots)
  {
    forall a, b :: a in log && b in log ==> Compatible(roots, a, b)
  }

  lemma RepeatsBreakDistinctness(m: MergeState)
    ensures DistinctPaths(m.entries) <==> forall p :: !Repeated(m, p)
  {
    forall i, j | 0 <= i < j < |m.entries| && m.entries[i].path == m.entries[j].path
      ensures Repeated(m, m.entries[i].path)
    {
    }
  }

  /** The merged paths are unique exactly when all views of every file are compatible. */
  lemma UniqueIffCompatible(m: MergeState, log: seq<Contribution>, roots: seq<RootMount>)
    requires Consistent(m, log, roots)
    ensures DistinctPaths(m.entries) <==> AllCompatible(log, roots)
    ensures forall p :: Repeated(m, p) ==> ConflictOn(log, roots, p)
  {
    RepeatsBreakDistinctness(m);
    hide Repeated, Compatible, WellShaped, Accounted, Traced, DistinctPaths;
  }

  /** The view of the last scanned root that lists the file. */
  ghost predicate Prevails(log: seq<Contribution>, c: Contribution) {
    c in log && forall d :: d in log && SamePath(d, c) ==> d.root <= c.root
  }

  /** With unique paths, the merge holds exactly the prevailing views. */
  lemma PrevailingIsHeld(m: MergeState, log: seq<Contribution>, roots: seq<RootMount>, c: Contribution)
    requires Consistent(m, log, roots) && DistinctPaths(m.entries) && Prevails(log, c)
    ensures Held(m, c)
  {
    assert Accounted(m, roots, c);
    RepeatsBreakDistinctness(m);
    var at := m.owner[c.entry.path];
    var held := Contribution(m.provenance[at].root, m.entries[at], m.provenance[at].byInclude);
    assert held in log && SamePath(held, c);
  }

  function ViewAt(m: MergeState, i: nat): Contribution
    requires i < |m.entries| && i in m.provenance
  {
    Contribution(m.provenance[i].root, m.entries[i], m.provenance[i].byInclude)
  }

  lemma HeldPrevails(m: MergeState, log: seq<Contribution>, roots: seq<RootMount>, i: nat)
    requires Consistent(m, log, roots) && DistinctPaths(m.entries) && i < |m.entries|
    ensures i in m.provenance && Prevails(log, ViewAt(m, i))
  {
    var c := ViewAt(m, i);
    RepeatsBreakDistinctness(m);
    assert m.owner[c.entry.path] == i;
    forall d | d in log && SamePath(d, c) ensures d.root <= c.root {
      assert Accounted(m, roots, d);
    }
  }

  // ---- what each root provides ----

  ghost function Provided(log: seq<Contribution>, root: nat): set<Contribution> {
    set c | c in log && Prevails(log, c) && c.root == root
  }

  /** Total size of a set of views. */
  ghost function SizeOf(views: set<Contribution>): nat {
    if views == {} then 0
    else var c :| c in views; c.entry.size + SizeOf(views - {c})
  }

  lemma {:induction false} SizeOfWith(views: set<Contribution>, c: Contribution)
    requires c !in views
    ensures SizeOf(views + {c}) == SizeOf(views) + c.entry.size
    decreases |views|
  {
    var all := views + {c};
    var d :| d in all && SizeOf(all) == d.entry.size + SizeOf(all - {d});
    if d == c {
      assert all - {c} == views;
    } else {
      var less := views - {d};
      SizeOfWith(less, c);
      assert all - {d} == less + {c};
      SizeOfWith(less, d);
      assert less + {d} == views;
    }
  }

  lemma SizeOfNothing()
    ensures SizeOf({}) == 0
  {
  }

  ghost function ViewsOf(m: MergeState, n: nat, root: nat): set<Contribution>
    requires HasProvenance(m) && n <= |m.entries|
  {
    if n == 0 then {}
    else ViewsOf(m, n - 1, root) + (if m.provenance[n - 1].root == root then {ViewAt(m, n - 1)} else {})
  }

  lemma {:induction false} ViewsOfMembers(m: MergeState, n: nat, root: nat, c: Contribution)
    requires HasProvenance(m) && n <= |m.entries|
    ensures c in ViewsOf(m, n, root) <==> c.root == root && exists i :: 0 <= i < n && ViewAt(m, i) == c
  {
    if n > 0 {
      ViewsOfMembers(m, n - 1, root, c);
    }
  }

  lemma LatestViewIsNew(m: MergeState, n: nat, root: nat)
    requires HasProvenance(m) && n < |m.entries| && DistinctPaths(m.entries)
    ensures ViewAt(m, n) !in ViewsOf(m, n, root)
  {
    ViewsOfMembers(m, n, root, ViewAt(m, n));
  }

  lemma {:induction false} ViewsOfCount(m: MergeState, n: nat, root: nat)
    requires HasProvenance(m) && n <= |m.entries| && DistinctPaths(m.entries)
    ensures |ViewsOf(m, n, root)| == FilesOf(m.provenance, n, root)
  {
    hide DistinctPaths;
    if n > 0 {
      ViewsOfCount(m, n - 1, root);
      LatestViewIsNew(m, n - 1, root);
    }
  }

  lemma {:induction false} ViewsOfSize(m: MergeState, n: nat, root: nat)
    requires HasProvenance(m) && n <= |m.entries| && DistinctPaths(m.entries)
    ensures SizeOf(ViewsOf(m, n, root)) == BytesOf(m.entries[..n], m.provenance, root)
  {
    hide SizeOf, DistinctPaths;
    if n == 0 {
      SizeOfNothing();
    } else {
      ViewsOfSize(m, n - 1, root);
      LatestViewIsNew(m, n - 1, root);
      assert m.entries[..n][..n - 1] == m.entries[..n - 1];
      SizeOfWith(ViewsOf(m, n - 1, root), ViewAt(m, n - 1));
      assert m.provenance[n - 1].root != root ==> ViewsOf(m, n, root) == ViewsOf(m, n - 1, root);
    }
  }

  lemma ViewsAreProvided(m: MergeState, log: seq<Contribution>, roots: seq<RootMount>, root: nat, c: Contribution)
    requires Consistent(m, log, roots) && DistinctPaths(m.entries) && HasProvenance(m)
    ensures c in ViewsOf(m, |m.entries|, root) <==> Prevails(log, c) && c.root == root
  {
    hide Consistent, DistinctPaths, Prevails, ViewsOf;
    ViewsOfMembers(m, |m.entries|, root, c);
    if Prevails(log, c) {
      PrevailingIsHeld(m, log, roots, c);
      assert ViewAt(m, m.owner[c.entry.path]) == c;
    }
    if c in ViewsOf(m, |m.entries|, root) {
      var i :| 0 <= i < |m.entries| && ViewAt(m, i) == c;
      HeldPrevails(m, log, roots, i);
    }
  }

  /** A root's final tally counts and weighs exactly the files it provides. */
  lemma TallyIsProvided(m: MergeState, log: seq<Contribution>, roots: seq<RootMount>, root: nat)
    requires Consistent(m, log, roots) && DistinctPaths(m.entries) && HasProvenance(m)
    ensures FilesOf(m.provenance, |m.entries|, root) == |Provided(log, root)|
    ensures BytesOf(m.entries, m.provenance, root) == SizeOf(Provided(log, root))
  {
    hide Consistent, DistinctPaths, FilesOf, BytesOf, SizeOf, ViewsOf, HasProvenance;
    var n := |m.entries|;
    assert m.entries[..n] == m.entries;
    ViewsOfCount(m, n, root);
    ViewsOfSize(m, n, root);
    assert ViewsOf(m, n, root) == Provided(log, root) by {
      forall c ensures c in ViewsOf(m, n, root) <==> c in Provided(log, root) {
        ViewsAreProvided(m, log, roots, root, c);
      }
    }
  }

  // ---- conservation ----

  function TotalFiles(infos: seq<RootInfo>): nat {
    if infos == [] then 0 else TotalFiles(infos[..|infos| - 1]) + infos[|infos| - 1].files
  }

  function TotalBytes(infos: seq<RootInfo>): nat {
    if infos == [] then 0 else TotalBytes(infos[..|infos| - 1]) + infos[|infos| - 1].bytes
  }

  function TotalSize(entries: seq<FileEntry>): nat {
    if entries == [] then 0 else TotalSize(entries[..|entries| - 1]) + entries[|entries| - 1].size
  }

  function FilesBelow(m: MergeState, roots: nat, n: nat): nat
    requires HasProvenance(m) && n <= |m.entries|
  {
    if roots == 0 then 0 else FilesBelow(m, roots - 1, n) + FilesOf(m.provenance, n, roots - 1)
  }

  function BytesBelow(m: MergeState, roots: nat, n: nat): nat
    requires HasProvenance(m) && n <= |m.entries|
  {
    if roots == 0 then 0 else BytesBelow(m, roots - 1, n) + BytesOf(m.entries[..n], m.provenance, roots - 1)
  }

  lemma {:induction false} OneMoreBelow(m: MergeState, roots: nat, n: nat)
    requires HasProvenance(m) && n < |m.entries|
    ensures var mine := m.provenance[n].root < roots;
      && FilesBelow(m, roots, n + 1) == FilesBelow(m, roots, n) + (if mine then 1 else 0)
      && BytesBelow(m, roots, n + 1) == BytesBelow(m, roots, n) + (if mine then m.entries[n].size else 0)
  {
    if roots > 0 {
      OneMoreBelow(m, roots - 1, n);
      assert m.entries[..n + 1][..n] == m.entries[..n];
    }
  }

  lemma {:induction false} NothingBelow(m: MergeState, roots: nat)
    requires HasProvenance(m)
    ensures FilesBelow(m, roots, 0) == 0 && BytesBelow(m, roots, 0) == 0
  {
    if roots > 0 { NothingBelow(m, roots - 1); }
  }

  lemma {:induction false} BelowIsEverything(m: MergeState, roots: nat, n: nat)
    requires HasProvenance(m) && n <= |m.entries|
    requires forall i :: 0 <= i < n ==> m.provenance[i].root < roots
    ensures FilesBelow(m, roots, n) == n
    ensures BytesBelow(m, roots, n) == TotalSize(m.entries[..n])
  {
    if n == 0 {
      NothingBelow(m, roots);
    } else {
      BelowIsEverything(m, roots, n - 1);
      OneMoreBelow(m, roots, n - 1);
      assert m.entries[..n][..n - 1] == m.entries[..n - 1];
    }
  }

  /** The tally at a scanned root's slot. */
  lemma SlotTally(m: MergeState, roots: seq<RootMount>, scans: seq<Scan>, display: Path -> Str, n: nat, k: nat)
    requires k < n <= |roots| == |scans| && HasProvenance(m) && InfosFor(m, roots, scans, display, n)
    requires Tallied(m, k) && Scanned(roots, scans, k)
    ensures var slot := ScannedBefore(roots, scans, k);
      && slot < |m.rootsInfo| && Names(m.rootsInfo[slot], roots[k], display)
      && m.rootsInfo[slot].files == FilesOf(m.provenance, |m.entries|, k)
      && m.rootsInfo[slot].bytes == BytesOf(m.entries, m.provenance, k)
  {
    hide Scanned, Names, ScannedBefore, FilesOf, BytesOf;
  }

  lemma {:induction false} InfosAddUp(m: MergeState, roots: seq<RootMount>, scans: seq<Scan>, display: Path -> Str,
                                      n: nat, k: nat)
    requires k <= n <= |roots| == |scans| && HasProvenance(m) && InfosFor(m, roots, scans, display, n)
    requires forall r: nat :: Tallied(m, r)
    requires forall i :: i in m.provenance ==> m.provenance[i].root in m.infoAt
    ensures ScannedBefore(roots, scans, k) <= |m.rootsInfo|
    ensures TotalFiles(m.rootsInfo[..ScannedBefore(roots, scans, k)]) == FilesBelow(m, k, |m.entries|)
    ensures TotalBytes(m.rootsInfo[..ScannedBefore(roots, scans, k)]) == BytesBelow(m, k, |m.entries|)
  {
    hide Scanned, Names, Tallied, FilesOf, BytesOf;
    if k > 0 {
      InfosAddUp(m, roots, scans, display, n, k - 1);
      assert m.entries[..|m.entries|] == m.entries;
      var slot := ScannedBefore(roots, scans, k - 1);
      if Scanned(roots, scans, k - 1) {
        SlotTally(m, roots, scans, display, n, k - 1);
        assert m.rootsInfo[..slot + 1][..slot] == m.rootsInfo[..slot];
      } else {
        NoneProvided(m, k - 1, |m.entries|);
      }
    }
  }

  /** The per-root tallies add up to the manifest: no file is counted twice or lost, and no
      deduction was cut short at zero. */
  lemma TalliesConserve(m: MergeState, roots: seq<RootMount>, scans: seq<Scan>, display: Path -> Str)
    requires |roots| == |scans| && Merged(m, roots, scans, display, |roots|)
    ensures TotalFiles(m.rootsInfo) == |m.entries|
    ensures TotalBytes(m.rootsInfo) == TotalSize(m.entries)
  {
    hide Consistent, Tallied, Scanned, Names, CoveredBy;
    InfosAddUp(m, roots, scans, display, |roots|, |roots|);
    assert m.rootsInfo[..|m.rootsInfo|] == m.rootsInfo;
    assert m.entries[..|m.entries|] == m.entries;
    BelowIsEverything(m, |roots|, |m.entries|);
  }

  // ---- the whole pass ----

  datatype ScanError = PrimaryNotScanned | TwoProviders(path: Str) | CaseConflict(a: Str, b: Str)

  ghost predicate PrimaryScanned(roots: seq<RootMount>, scans: seq<Scan>)
    requires |roots| == |scans|
  {
    exists k :: 0 <= k < |roots| && roots[k].primary && Scanned(roots, scans, k)
  }

  /** Mount of the first primary root. */
  function AnchorMount(roots: seq<RootMount>): Str {
    if roots == [] then [] else if roots[0].primary then roots[0].mount else AnchorMount(roots[1..])
  }

  ghost predicate Viewed(log: seq<Contribution>, path: Str) {
    exists c :: c in log && c.entry.path == path
  }

  /** Two files of the merge whose paths differ only by case. */
  ghost predicate CaseClash(lower: Str -> Str, log: seq<Contribution>, a: Str, b: Str) {
    Clash(lower, a, b) && Viewed(log, a) && Viewed(log, b)
  }

  /** The entry list a successful pass returns: sorted, each path once, and each file as the last
      scanned root that lists it saw it. */
  ghost predicate PrevailingEntries(entries: seq<FileEntry>, log: seq<Contribution>) {
    && Sorted(ByPath, entries) && DistinctPaths(entries)
    && (forall c :: Prevails(log, c) ==> c.entry in entries)
    && (forall e :: e in entries ==> exists c :: Prevails(log, c) && c.entry == e)
  }

  /** One tally per scanned root, in mount order, and together they make up the manifest. */
  ghost predicate ExactTallies(infos: seq<RootInfo>, entries: seq<FileEntry>, log: seq<Contribution>,
                               roots: seq<RootMount>, scans: seq<Scan>, display: Path -> Str)
    requires |roots| == |scans|
  {
    && |infos| == ScannedBefore(roots, scans, |roots|)
    && (forall r: nat :: r < |roots| && Scanned(roots, scans, r) ==> ScannedBefore(roots, scans, r) < |infos|)
    && (forall r: nat :: r < |roots| && Scanned(roots, scans, r) ==>
        infos[ScannedBefore(roots, scans, r)] == ExactInfo(roots[r], display, Provided(log, r)))
    && TotalFiles(infos) == |entries| && TotalBytes(infos) == TotalSize(entries)
  }

  /** The tally a root owes for the files it provides. */
  ghost function ExactInfo(root: RootMount, display: Path -> Str, provided: set<Contribution>): RootInfo {
    RootInfo(root.mount, display(root.path), root.primary, SizeOf(provided), |provided|)
  }

  lemma FinalTally(m: MergeState, roots: seq<RootMount>, scans: seq<Scan>, display: Path -> Str, r: nat)
    requires |roots| == |scans| && Merged(m, roots, scans, display, |roots|) && DistinctPaths(m.entries)
    requires r < |roots| && Scanned(roots, scans, r)
    ensures ScannedBefore(roots, scans, r) < |m.rootsInfo|
    ensures m.rootsInfo[ScannedBefore(roots, scans, r)] ==
      ExactInfo(roots[r], display, Provided(Log(roots, scans, |roots|), r))
  {
    var log := Log(roots, scans, |roots|);
    assert HasProvenance(m) && Tallied(m, r) && InfosFor(m, roots, scans, display, |roots|) &&
      Consistent(m, log, roots);
    hide Merged, Midway, Consistent, HasProvenance, Tallied, InfosFor, Log, Provided, SizeOf, FilesOf, BytesOf,
      ScannedBefore, Scanned;
    SlotTally(m, roots, scans, display, |roots|, r);
    TallyIsProvided(m, log, roots, r);
  }

  lemma InfoCount(m: MergeState, roots: seq<RootMount>, scans: seq<Scan>, display: Path -> Str)
    requires |roots| == |scans| && Merged(m, roots, scans, display, |roots|)
    ensures |m.rootsInfo| == ScannedBefore(roots, scans, |roots|)
  {
    assert InfosFor(m, roots, scans, display, |roots|);
  }

  lemma TalliesAreExact(m: MergeState, roots: seq<RootMount>, scans: seq<Scan>, display: Path -> Str)
    requires |roots| == |scans| && Merged(m, roots, scans, display, |roots|) && DistinctPaths(m.entries)
    ensures ExactTallies(m.rootsInfo, m.entries, Log(roots, scans, |roots|), roots, scans, display)
  {
    hide Merged, Log, Provided, ScannedBefore, Scanned, ExactInfo, TotalFiles, TotalBytes, TotalSize, DistinctPaths;
    InfoCount(m, roots, scans, display);
    TalliesConserve(m, roots, scans, display);
    forall r: nat | r < |roots| && Scanned(roots, scans, r)
      ensures ScannedBefore(roots, scans, r) < |m.rootsInfo|
      ensures m.rootsInfo[ScannedBefore(roots, scans, r)] ==
        ExactInfo(roots[r], display, Provided(Log(roots, scans, |roots|), r))
    {
      FinalTally(m, roots, scans, display, r);
    }
  }

  lemma {:induction false} TotalSizeOfConcat(a: seq<FileEntry>, b: seq<FileEntry>)
    ensures TotalSize(a + b) == TotalSize(a) + TotalSize(b)
  {
    if b == [] {
      assert a + b == a;
    } else {
      var n := |b| - 1;
      TotalSizeOfConcat(a, b[..n]);
      assert (a + b)[..|a + b| - 1] == a + b[..n];
    }
  }

  lemma {:induction false} TotalSizeOfInsert(e: FileEntry, s: seq<FileEntry>)
    ensures TotalSize(Insert(ByPath, e, s)) == e.size + TotalSize(s)
  {
    TotalSizeOfConcat([e], s);
    if s != [] {
      assert s == [s[0]] + s[1..];
      TotalSizeOfInsert(e, s[1..]);
      TotalSizeOfConcat([s[0]], s[1..]);
      TotalSizeOfConcat([s[0]], Insert(ByPath, e, s[1..]));
    }
  }

  lemma {:induction false} TotalSizeOfSort(s: seq<FileEntry>)
    ensures TotalSize(Sort(ByPath, s)) == TotalSize(s)
  {
    if s != [] {
      assert s == [s[0]] + s[1..];
      TotalSizeOfSort(s[1..]);
      TotalSizeOfInsert(s[0], Sort(ByPath, s[1..]));
      TotalSizeOfConcat([s[0]], s[1..]);
    }
  }

  /** Sorting loses nothing: what prevails is what the manifest lists. */
  lemma SortedPrevails(m: MergeState, log: seq<Contribution>, roots: seq<RootMount>)
    requires Consistent(m, log, roots) && DistinctPaths(m.entries)
    ensures PrevailingEntries(Sort(ByPath, m.entries), log)
  {
    hide Consistent, Prevails, Sort, DedupByPath;
    var entries := Sort(ByPath, m.entries);
    NothingDropped(m.entries);
    SameElements(m.entries, entries);
    forall c | Prevails(log, c) ensures c.entry in entries {
      PrevailingIsHeld(m, log, roots, c);
    }
    forall e | e in entries ensures exists c :: Prevails(log, c) && c.entry == e {
      var i :| 0 <= i < |m.entries| && m.entries[i] == e;
      HeldPrevails(m, log, roots, i);
      assert ViewAt(m, i).entry == e;
    }
  }

  /** The tallies still fit the sorted list. */
  lemma SortedTallies(m: MergeState, roots: seq<RootMount>, scans: seq<Scan>, display: Path -> Str)
    requires |roots| == |scans| && Merged(m, roots, scans, display, |roots|) && DistinctPaths(m.entries)
    ensures ExactTallies(m.rootsInfo, Sort(ByPath, m.entries), Log(roots, scans, |roots|), roots, scans, display)
  {
    hide Merged, Log, Provided, ScannedBefore, Scanned, ExactInfo, TotalFiles, TotalBytes, TotalSize, DistinctPaths,
      Sort;
    TalliesAreExact(m, roots, scans, display);
    TotalSizeOfSort(m.entries);
  }

  /** Every merged path is some view's path, and the other way round. */
  lemma MergedPaths(m: MergeState, log: seq<Contribution>, roots: seq<RootMount>, path: Str)
    requires Consistent(m, log, roots)
    ensures Viewed(log, path) <==> exists i :: 0 <= i < |m.entries| && m.entries[i].path == path
  {
    hide ConflictsShow, RepeatsJustified, Repeated, MayYield;
    if i :| 0 <= i < |m.entries| && m.entries[i].path == path {
      assert ViewAt(m, i) in log;
    }
    if c :| c in log && c.entry.path == path {
      assert Accounted(m, roots, c);
      assert m.entries[m.owner[path]].path == path;
    }
  }

  lemma ClashesAreCaseClashes(lower: Str -> Str, m: MergeState, log: seq<Contribution>, roots: seq<RootMount>)
    requires Consistent(m, log, roots)
    ensures forall pair :: ClashesIn(lower, m.entries, pair) ==> CaseClash(lower, log, pair.0, pair.1)
    ensures (exists a, b :: CaseClash(lower, log, a, b)) ==> ClashAmong(lower, m.entries)
  {
    hide Consistent, Viewed;
    forall path ensures Viewed(log, path) <==> exists i :: 0 <= i < |m.entries| && m.entries[i].path == path {
      MergedPaths(m, log, roots, path);
    }
    if a, b :| CaseClash(lower, log, a, b) {
      var i :| 0 <= i < |m.entries| && m.entries[i].path == a;
      var j :| 0 <= j < |m.entries| && m.entries[j].path == b;
      assert Clash(lower, m.entries[if i < j then i else j].path, m.entries[if i < j then j else i].path);
    }
  }

  /** The first path met twice, if any. */
  method FindRepeat(m: MergeState) returns (r: Option<Str>)
    ensures r.None? <==> DistinctPaths(m.entries)
    ensures r.Some? ==> Repeated(m, r.value)
  {
    var byPath: set<Str> := {};
    for i := 0 to |m.entries|
      invariant forall p :: p in byPath <==> exists k :: 0 <= k < i && m.entries[k].path == p
      invariant forall j, k :: 0 <= j < k < i ==> m.entries[j].path != m.entries[k].path
    {
      if m.entries[i].path in byPath {
        return Some(m.entries[i].path);
      }
      byPath := byPath + {m.entries[i].path};
    }
    return None;
  }

  lemma MergedSummary(m: MergeState, roots: seq<RootMount>, scans: seq<Scan>, display: Path -> Str)
    requires |roots| == |scans| && Merged(m, roots, scans, display, |roots|)
    ensures Consistent(m, Log(roots, scans, |roots|), roots) && InRange(Log(roots, scans, |roots|), roots)
    ensures |m.rootsInfo| == ScannedBefore(roots, scans, |roots|)
    ensures forall k: nat :: k in m.infoAt <==> k < |roots| && Scanned(roots, scans, k)
  {
    MergedParts(m, roots, scans, display, |roots|);
    MidwayParts(m, Log(roots, scans, |roots|), roots, scans, display, |roots|);
    ConsistentShape(m, Log(roots, scans, |roots|), roots);
    hide Merged, Midway, Consistent, Scanned, Names, Log, Tallied;
  }

  method FindPrimary(roots: seq<RootMount>, scans: seq<Scan>, scanned: map<nat, nat>) returns (found: bool)
    requires |roots| == |scans|
    requires forall r: nat :: r in scanned <==> r < |roots| && Scanned(roots, scans, r)
    ensures found <==> PrimaryScanned(roots, scans)
  {
    hide Scanned;
    found := false;
    for k := 0 to |roots|
      invariant found <==> exists j :: 0 <= j < k && roots[j].primary && Scanned(roots, scans, j)
    {
      if k in scanned && roots[k].primary {
        found := true;
      }
    }
  }

  /** The manifest of a pass: the prevailing entries, their hash, and the tallies, which a scan of
      the anchor alone leaves out. */
  ghost predicate Returned(hash: Str -> Str, display: Path -> Str, roots: seq<RootMount>, scans: seq<Scan>, m: Manifest)
    requires |roots| == |scans|
  {
    var log := Log(roots, scans, |roots|);
    && PrevailingEntries(m.entries, log)
    && m.rootHash == hash(RootPreimage(m.entries))
    && m.anchorMount == AnchorMount(roots)
    && if ScannedBefore(roots, scans, |roots|) == 1 && AnchorMount(roots) == [] then m.roots == []
       else ExactTallies(m.roots, m.entries, log, roots, scans, display)
  }

  lemma NowReturned(hash: Str -> Str, display: Path -> Str, roots: seq<RootMount>, scans: seq<Scan>, m: Manifest)
    requires |roots| == |scans| && PrevailingEntries(m.entries, Log(roots, scans, |roots|))
    requires m.rootHash == hash(RootPreimage(m.entries)) && m.anchorMount == AnchorMount(roots)
    requires if ScannedBefore(roots, scans, |roots|) == 1 && AnchorMount(roots) == [] then m.roots == []
      else ExactTallies(m.roots, m.entries, Log(roots, scans, |roots|), roots, scans, display)
    ensures Returned(hash, display, roots, scans, m)
  {
    hide PrevailingEntries, ExactTallies, RootPreimage, ScannedBefore, Log;
  }

  // ---- the answer, said of the scans themselves ----

  /** Where a root's file lies below the anchor. */
  ghost function Place(mount: Str, path: Str): Str {
    if mount == [] then path else mount + [47] + path
  }

  /** The `i`-th entry of the `k`-th root's scan. */
  ghost predicate HasEntry(scans: seq<Scan>, k: nat, i: nat) {
    k < |scans| && i < |scans[k].entries|
  }

  ghost predicate ListedAt(roots: seq<RootMount>, scans: seq<Scan>, k: nat, i: nat, place: Str)
    requires |roots| == |scans|
  {
    HasEntry(scans, k, i) && Place(roots[k].mount, scans[k].entries[i].path) == place
  }

  /** An earlier one of the scanned roots lists the place, and not on the word of `include` alone. */
  ghost predicate GitListed(roots: seq<RootMount>, scans: seq<Scan>, done: set<nat>, k: nat, place: Str)
    requires |roots| == |scans|
  {
    exists j: nat, i: nat :: j in done && j < k && ListedByGit(roots, scans, j, i, place)
  }

  ghost predicate ListedByGit(roots: seq<RootMount>, scans: seq<Scan>, k: nat, i: nat, place: Str)
    requires |roots| == |scans|
  {
    ListedAt(roots, scans, k, i, place) && scans[k].entries[i].path !in scans[k].included
  }

  /** `k` lies inside an earlier root, and git lists its manifest for an earlier scanned one. */
  ghost predicate LeftOut(roots: seq<RootMount>, scans: seq<Scan>, done: set<nat>, k: nat)
    requires |roots| == |scans| && k < |roots|
  {
    && roots[k].nested && (exists j :: 0 <= j < k && roots[j].path <= roots[k].path)
    && GitListed(roots, scans, done, k, Place(roots[k].mount, Ascii("Cargo.toml")))
  }

  /** The roots that are scanned. */
  ghost predicate Turn(roots: seq<RootMount>, scans: seq<Scan>, done: set<nat>)
    requires |roots| == |scans|
  {
    && (forall k :: k in done ==> k < |roots|)
    && forall k: nat :: k < |roots| ==> (k in done <==> !LeftOut(roots, scans, done, k))
  }

  /** No later scanned root lists the place of this entry. */
  ghost predicate Latest(roots: seq<RootMount>, scans: seq<Scan>, done: set<nat>, k: nat, i: nat)
    requires |roots| == |scans|
  {
    && k in done && HasEntry(scans, k, i)
    && forall l: nat, j: nat :: l in done && l > k ==>
      !ListedAt(roots, scans, l, j, Place(roots[k].mount, scans[k].entries[i].path))
  }

  /** The entry of a scan, moved to its place below the anchor; only the primary root has a baseline. */
  ghost predicate Moved(e: FileEntry, root: RootMount, f: FileEntry) {
    && e.path == Place(root.mount, f.path)
    && e.size == f.size && e.hash == f.hash && e.kind == f.kind && e.executable == f.executable
    && e.symlinkTarget == f.symlinkTarget
    && (e.inBaseline <==> root.primary && f.inBaseline)
  }

  ghost predicate MovedFrom(e: FileEntry, roots: seq<RootMount>, scans: seq<Scan>, done: set<nat>)
    requires |roots| == |scans|
  {
    exists k: nat, i: nat :: Latest(roots, scans, done, k, i) && Moved(e, roots[k], scans[k].entries[i])
  }

  /** The entries of the answer are those of the scans, each as the last scanned root that lists it
      has it, and no place twice. */
  ghost predicate Gathers(entries: seq<FileEntry>, roots: seq<RootMount>, scans: seq<Scan>, done: set<nat>)
    requires |roots| == |scans|
  {
    && (forall e :: e in entries ==> MovedFrom(e, roots, scans, done))
    && (forall k: nat, i: nat :: Latest(roots, scans, done, k, i) ==>
        exists e :: e in entries && Moved(e, roots[k], scans[k].entries[i]))
    && forall i, j :: 0 <= i < j < |entries| ==>
      Leq(entries[i].path, entries[j].path) && entries[i].path != entries[j].path
  }

  /** Two scanned roots list the place, and the earlier one may not yield it: it is not alone with its
      `include`, or does not lie around the later one. */
  ghost predicate Claimed(roots: seq<RootMount>, scans: seq<Scan>, done: set<nat>, place: Str)
    requires |roots| == |scans|
  {
    exists k: nat, i: nat, l: nat, j: nat ::
      k in done && l in done && k < l &&
      ListedAt(roots, scans, k, i, place) && ListedAt(roots, scans, l, j, place) &&
      !(scans[k].entries[i].path in scans[k].included && roots[k].path <= roots[l].path)
  }

  ghost predicate SomewhereListed(roots: seq<RootMount>, scans: seq<Scan>, done: set<nat>, place: Str)
    requires |roots| == |scans|
  {
    exists k: nat, i: nat :: k in done && ListedAt(roots, scans, k, i, place)
  }

  /** The entries of a root that are the answer's. */
  ghost function Kept(roots: seq<RootMount>, scans: seq<Scan>, done: set<nat>, k: nat, n: nat): set<nat>
    requires |roots| == |scans|
  {
    set i: nat | i < n && Latest(roots, scans, done, k, i)
  }

  ghost function KeptBytes(roots: seq<RootMount>, scans: seq<Scan>, done: set<nat>, k: nat, n: nat): nat
    requires |roots| == |scans| && k < |scans| && n <= |scans[k].entries|
  {
    if n == 0 then 0
    else
      KeptBytes(roots, scans, done, k, n - 1)
      + (if Latest(roots, scans, done, k, n - 1) then scans[k].entries[n - 1].size else 0)
  }

  ghost function Done(roots: seq<RootMount>, scans: seq<Scan>, n: nat): set<nat>
    requires n <= |roots| == |scans|
  {
    set k: nat | k < n && Scanned(roots, scans, k)
  }

  lemma AnchoredIsPlace(mount: Str, path: Str)
    ensures Anchored(mount, path) == Place(mount, path)
  {
  }

  /** `c` is the `i`-th entry of the `k`-th root, a scanned one among the first `n`. */
  ghost predicate Origin(roots: seq<RootMount>, scans: seq<Scan>, n: nat, c: Contribution, k: nat, i: nat)
    requires n <= |roots| == |scans|
  {
    k < n && Scanned(roots, scans, k) && HasEntry(scans, k, i) && c == ContributionOf(roots, scans, k, i)
  }

  lemma {:induction false} LogMembers(roots: seq<RootMount>, scans: seq<Scan>, n: nat, c: Contribution)
    requires n <= |roots| == |scans|
    ensures c in Log(roots, scans, n) <==> exists k: nat, i: nat :: Origin(roots, scans, n, c, k, i)
  {
    hide Skipped, ContributionOf, CoveredBy;
    if n > 0 {
      var m := n - 1;
      LogMembers(roots, scans, m, c);
      var last := ContributionsOf(roots, scans, m, |scans[m].entries|);
      if k: nat, i: nat :| Origin(roots, scans, n, c, k, i) {
        assert k < m ==> Origin(roots, scans, m, c, k, i);
        assert k == m ==> last[i] == c;
      }
      if c in Log(roots, scans, n) {
        if k: nat, i: nat :| Origin(roots, scans, m, c, k, i) {
          assert Origin(roots, scans, n, c, k, i);
        } else {
          var i: nat :| i < |last| && last[i] == c;
          assert Origin(roots, scans, n, c, m, i);
        }
      }
    }
  }

  lemma ContributionIs(roots: seq<RootMount>, scans: seq<Scan>, k: nat, i: nat)
    requires k < |roots| == |scans| && i < |scans[k].entries|
    ensures var c := ContributionOf(roots, scans, k, i); var f := scans[k].entries[i];
      && c.root == k && Moved(c.entry, roots[k], f) && (c.byInclude <==> f.path in scans[k].included)
      && c.entry.path == Place(roots[k].mount, f.path)
  {
  }

  // The log is those entries.

  lemma {:induction false} DoneCount(roots: seq<RootMount>, scans: seq<Scan>, n: nat)
    requires n <= |roots| == |scans|
    ensures |Done(roots, scans, n)| == ScannedBefore(roots, scans, n)
  {
    hide Scanned;
    if n > 0 {
      DoneCount(roots, scans, n - 1);
      assert Done(roots, scans, n) ==
        Done(roots, scans, n - 1) + (if Scanned(roots, scans, n - 1) then {n - 1} else {});
    }
  }

  lemma InLog(roots: seq<RootMount>, scans: seq<Scan>, n: nat, k: nat, i: nat)
    requires n <= |roots| == |scans| && k in Done(roots, scans, n) && HasEntry(scans, k, i)
    ensures ContributionOf(roots, scans, k, i) in Log(roots, scans, n)
  {
    hide Scanned, ContributionOf, Log;
    LogMembers(roots, scans, n, ContributionOf(roots, scans, k, i));
    assert Origin(roots, scans, n, ContributionOf(roots, scans, k, i), k, i);
  }

  lemma FromLog(roots: seq<RootMount>, scans: seq<Scan>, n: nat, c: Contribution) returns (i: nat)
    requires n <= |roots| == |scans| && c in Log(roots, scans, n)
    ensures c.root in Done(roots, scans, n) && HasEntry(scans, c.root, i)
    ensures c == ContributionOf(roots, scans, c.root, i)
  {
    hide Scanned, Log;
    LogMembers(roots, scans, n, c);
    var k: nat, at: nat :| Origin(roots, scans, n, c, k, at);
    i := at;
  }

  lemma CoveredIsGitListed(roots: seq<RootMount>, scans: seq<Scan>, done: set<nat>, k: nat, place: Str)
    requires |roots| == |scans| && k < |roots| && done == Done(roots, scans, |roots|)
    ensures place in CoveredBy(Log(roots, scans, k)) <==> GitListed(roots, scans, done, k, place)
  {
    hide Scanned, Log, ContributionOf;
    if place in CoveredBy(Log(roots, scans, k)) {
      var c :| c in Log(roots, scans, k) && !c.byInclude && c.entry.path == place;
      var i := FromLog(roots, scans, k, c);
      ContributionIs(roots, scans, c.root, i);
      assert c.root in done && ListedByGit(roots, scans, c.root, i, place);
    }
    if j: nat, i: nat :| j in done && j < k && ListedByGit(roots, scans, j, i, place) {
      InLog(roots, scans, k, j, i);
      ContributionIs(roots, scans, j, i);
    }
  }

  lemma DoneTurns(roots: seq<RootMount>, scans: seq<Scan>)
    requires |roots| == |scans|
    ensures Turn(roots, scans, Done(roots, scans, |roots|))
  {
    hide Log, CoveredBy, GitListed;
    var done := Done(roots, scans, |roots|);
    forall k: nat | k < |roots| ensures k in done <==> !LeftOut(roots, scans, done, k) {
      AnchoredIsPlace(roots[k].mount, MANIFEST_FILE);
      CoveredIsGitListed(roots, scans, done, k, Place(roots[k].mount, MANIFEST_FILE));
      EnclosedExactly(roots, k);
      hide Enclosing, Place, Ascii;
    }
  }

  lemma EnclosedExactly(roots: seq<RootMount>, k: nat)
    requires k < |roots|
    ensures Enclosing(roots, k).Some? <==> exists j :: 0 <= j < k && roots[j].path <= roots[k].path
  {
    var e := Enclosing(roots, k);
    assert e.None? ==> forall j :: 0 <= j < k ==> !StartsWith(roots[k].path, roots[j].path);
    hide Enclosing;
  }

  /** What prevails in the log is what no later root lists. */
  lemma LatestPrevails(roots: seq<RootMount>, scans: seq<Scan>, done: set<nat>, k: nat, i: nat)
    requires |roots| == |scans| && done == Done(roots, scans, |roots|)
    requires k in done && HasEntry(scans, k, i)
    ensures Prevails(Log(roots, scans, |roots|), ContributionOf(roots, scans, k, i)) <==>
      Latest(roots, scans, done, k, i)
  {
    hide Scanned, Log, ContributionOf;
    var log, c := Log(roots, scans, |roots|), ContributionOf(roots, scans, k, i);
    InLog(roots, scans, |roots|, k, i);
    ContributionIs(roots, scans, k, i);
    if Prevails(log, c) {
      forall l: nat, j: nat | l in done && l > k ensures !ListedAt(roots, scans, l, j, c.entry.path) {
        if HasEntry(scans, l, j) {
          InLog(roots, scans, |roots|, l, j);
          ContributionIs(roots, scans, l, j);
          assert SamePath(ContributionOf(roots, scans, l, j), c) ==> l <= k;
        }
      }
    }
    if Latest(roots, scans, done, k, i) {
      forall d | d in log && SamePath(d, c) ensures d.root <= k {
        var j := FromLog(roots, scans, |roots|, d);
        ContributionIs(roots, scans, d.root, j);
        assert ListedAt(roots, scans, d.root, j, c.entry.path);
      }
    }
  }

  lemma PrevailingGathers(entries: seq<FileEntry>, roots: seq<RootMount>, scans: seq<Scan>, done: set<nat>)
    requires |roots| == |scans| && done == Done(roots, scans, |roots|)
    requires PrevailingEntries(entries, Log(roots, scans, |roots|))
    ensures Gathers(entries, roots, scans, done)
  {
    hide Scanned, Log, ContributionOf, Prevails, Done, Latest, Moved;
    var log := Log(roots, scans, |roots|);
    forall e | e in entries ensures MovedFrom(e, roots, scans, done) {
      var c :| Prevails(log, c) && c.entry == e;
      PrevailingIsLogged(log, c);
      var i := FromLog(roots, scans, |roots|, c);
      LatestPrevails(roots, scans, done, c.root, i);
      ContributionIs(roots, scans, c.root, i);
    }
    hide MovedFrom;
    forall k: nat, i: nat | Latest(roots, scans, done, k, i) ensures k in done && HasEntry(scans, k, i) {
      LatestIsEntered(roots, scans, done, k, i);
    }
    forall k: nat, i: nat | k in done && HasEntry(scans, k, i) && Latest(roots, scans, done, k, i)
      ensures exists e :: e in entries && Moved(e, roots[k], scans[k].entries[i]) {
      LatestPrevails(roots, scans, done, k, i);
      ContributionIs(roots, scans, k, i);
    }
  }

  lemma PrevailingIsLogged(log: seq<Contribution>, c: Contribution)
    requires Prevails(log, c)
    ensures c in log
  {
  }

  lemma LatestIsEntered(roots: seq<RootMount>, scans: seq<Scan>, done: set<nat>, k: nat, i: nat)
    requires |roots| == |scans| && Latest(roots, scans, done, k, i)
    ensures k in done && HasEntry(scans, k, i)
  {
  }

  lemma ConflictIsClaim(roots: seq<RootMount>, scans: seq<Scan>, done: set<nat>, place: Str)
    requires |roots| == |scans| && done == Done(roots, scans, |roots|)
    requires InRange(Log(roots, scans, |roots|), roots)
    ensures ConflictOn(Log(roots, scans, |roots|), roots, place) <==> Claimed(roots, scans, done, place)
  {
    hide Scanned, Log, ContributionOf, Done;
    var log := Log(roots, scans, |roots|);
    if ConflictOn(log, roots, place) {
      var a, b :| a in log && b in log && a.entry.path == place && !Compatible(roots, a, b);
      var i := FromLog(roots, scans, |roots|, a);
      var j := FromLog(roots, scans, |roots|, b);
      ContributionIs(roots, scans, a.root, i);
      ContributionIs(roots, scans, b.root, j);
      assert ListedAt(roots, scans, a.root, i, place) && ListedAt(roots, scans, b.root, j, place);
    }
    if Claimed(roots, scans, done, place) {
      var k: nat, i: nat, l: nat, j: nat :|
        k in done && l in done && k < l &&
        ListedAt(roots, scans, k, i, place) && ListedAt(roots, scans, l, j, place) &&
        !(scans[k].entries[i].path in scans[k].included && roots[k].path <= roots[l].path);
      InLog(roots, scans, |roots|, k, i);
      InLog(roots, scans, |roots|, l, j);
      ContributionIs(roots, scans, k, i);
      ContributionIs(roots, scans, l, j);
      assert !Compatible(roots, ContributionOf(roots, scans, k, i), ContributionOf(roots, scans, l, j));
    }
  }

  lemma ViewedIsListed(roots: seq<RootMount>, scans: seq<Scan>, done: set<nat>, place: Str)
    requires |roots| == |scans| && done == Done(roots, scans, |roots|)
    ensures Viewed(Log(roots, scans, |roots|), place) <==> SomewhereListed(roots, scans, done, place)
  {
    hide Scanned, Log, ContributionOf, Done;
    if Viewed(Log(roots, scans, |roots|), place) {
      var c :| c in Log(roots, scans, |roots|) && c.entry.path == place;
      var i := FromLog(roots, scans, |roots|, c);
      ContributionIs(roots, scans, c.root, i);
      assert ListedAt(roots, scans, c.root, i, place);
    }
    if k: nat, i: nat :| k in done && ListedAt(roots, scans, k, i, place) {
      InLog(roots, scans, |roots|, k, i);
      ContributionIs(roots, scans, k, i);
    }
  }

  ghost function KeptViews(roots: seq<RootMount>, scans: seq<Scan>, done: set<nat>, k: nat, n: nat): set<Contribution>
    requires k < |roots| == |scans| && n <= |scans[k].entries|
  {
    set i: nat | i < n && Latest(roots, scans, done, k, i) :: ContributionOf(roots, scans, k, i)
  }

  lemma {:induction false} KeptViewsAddUp(roots: seq<RootMount>, scans: seq<Scan>, done: set<nat>, k: nat, n: nat)
    requires k < |roots| == |scans| && n <= |scans[k].entries| && DistinctPaths(scans[k].entries)
    ensures |KeptViews(roots, scans, done, k, n)| == |Kept(roots, scans, done, k, n)|
    ensures SizeOf(KeptViews(roots, scans, done, k, n)) == KeptBytes(roots, scans, done, k, n)
  {
    hide Latest, SizeOf, ContributionOf;
    if n == 0 {
      assert KeptViews(roots, scans, done, k, 0) == {};
      assert Kept(roots, scans, done, k, 0) == {};
      SizeOfNothing();
    } else {
      var m := n - 1;
      var before, c := KeptViews(roots, scans, done, k, m), ContributionOf(roots, scans, k, m);
      KeptViewsAddUp(roots, scans, done, k, m);
      NewView(roots, scans, done, k, m);
      SizeOfWith(before, c);
      ContributionIs(roots, scans, k, m);
      KeptViewsNext(roots, scans, done, k, m);
      hide KeptViews, Kept, Moved;
    }
  }

  lemma KeptViewsNext(roots: seq<RootMount>, scans: seq<Scan>, done: set<nat>, k: nat, m: nat)
    requires k < |roots| == |scans| && m < |scans[k].entries|
    ensures var c, latest := ContributionOf(roots, scans, k, m), Latest(roots, scans, done, k, m);
      && KeptViews(roots, scans, done, k, m + 1) == KeptViews(roots, scans, done, k, m) + (if latest then {c} else {})
      && |Kept(roots, scans, done, k, m + 1)| == |Kept(roots, scans, done, k, m)| + (if latest then 1 else 0)
  {
    hide Latest, ContributionOf;
    var latest := Latest(roots, scans, done, k, m);
    assert Kept(roots, scans, done, k, m + 1) == Kept(roots, scans, done, k, m) + (if latest then {m} else {});
    assert KeptViews(roots, scans, done, k, m + 1) ==
      KeptViews(roots, scans, done, k, m) + (if latest then {ContributionOf(roots, scans, k, m)} else {});
  }

  /** No earlier entry of the root has this one's path. */
  lemma NewView(roots: seq<RootMount>, scans: seq<Scan>, done: set<nat>, k: nat, n: nat)
    requires k < |roots| == |scans| && n < |scans[k].entries| && DistinctPaths(scans[k].entries)
    ensures ContributionOf(roots, scans, k, n) !in KeptViews(roots, scans, done, k, n)
  {
    hide Latest, ContributionOf;
    forall i: nat | i < n ensures ContributionOf(roots, scans, k, i) != ContributionOf(roots, scans, k, n) {
      ContributionIs(roots, scans, k, i);
      ContributionIs(roots, scans, k, n);
      AnchoredIsPlace(roots[k].mount, scans[k].entries[i].path);
      AnchoredIsPlace(roots[k].mount, scans[k].entries[n].path);
      if ContributionOf(roots, scans, k, i) == ContributionOf(roots, scans, k, n) {
        AnchoredInjective(roots[k].mount, scans[k].entries[i].path, scans[k].entries[n].path);
      }
    }
  }

  lemma ProvidedIsKept(roots: seq<RootMount>, scans: seq<Scan>, done: set<nat>, k: nat)
    requires |roots| == |scans| && done == Done(roots, scans, |roots|) && k in done
    requires DistinctPaths(scans[k].entries)
    ensures var n := |scans[k].entries|; var provided := Provided(Log(roots, scans, |roots|), k);
      |provided| == |Kept(roots, scans, done, k, n)| && SizeOf(provided) == KeptBytes(roots, scans, done, k, n)
  {
    hide Scanned, Log, ContributionOf, Prevails, Latest, SizeOf, Kept, KeptBytes, DistinctPaths;
    var n, log := |scans[k].entries|, Log(roots, scans, |roots|);
    KeptViewsAddUp(roots, scans, done, k, n);
    forall c ensures c in Provided(log, k) <==> c in KeptViews(roots, scans, done, k, n) {
      if c in Provided(log, k) {
        var i := FromLog(roots, scans, |roots|, c);
        LatestPrevails(roots, scans, done, k, i);
      }
      if c in KeptViews(roots, scans, done, k, n) {
        var i: nat :| i < n && Latest(roots, scans, done, k, i) && c == ContributionOf(roots, scans, k, i);
        InLog(roots, scans, |roots|, k, i);
        LatestPrevails(roots, scans, done, k, i);
        ContributionIs(roots, scans, k, i);
      }
    }
    assert Provided(log, k) == KeptViews(roots, scans, done, k, n);
  }

  ghost function Before(done: set<nat>, k: nat): set<nat> {
    set j | j in done && j < k
  }

  /** One tally for each scanned root, in order: its files and bytes in the answer. */
  ghost predicate Counted(infos: seq<RootInfo>, display: Path -> Str, roots: seq<RootMount>, scans: seq<Scan>,
                          done: set<nat>)
    requires |roots| == |scans|
  {
    && |infos| == |done|
    && forall k: nat :: k in done && k < |roots| ==>
      && |Before(done, k)| < |infos|
      && infos[|Before(done, k)|] ==
         RootInfo(roots[k].mount, display(roots[k].path), roots[k].primary,
                  KeptBytes(roots, scans, done, k, |scans[k].entries|),
                  |Kept(roots, scans, done, k, |scans[k].entries|)|)
  }

  /** The manifest of a pass over those roots. A scan of the anchor alone leaves the tallies out. */
  ghost predicate Answer(m: Manifest, hash: Str -> Str, display: Path -> Str, roots: seq<RootMount>, scans: seq<Scan>,
                         done: set<nat>)
    requires |roots| == |scans|
  {
    && Turn(roots, scans, done)
    && Gathers(m.entries, roots, scans, done)
    && HashOf(m.rootHash, hash, m.entries)
    && (forall k :: 0 <= k < |roots| && roots[k].primary && (forall j :: 0 <= j < k ==> !roots[j].primary) ==>
        m.anchorMount == roots[k].mount)
    && if |done| == 1 && m.anchorMount == [] then m.roots == [] else Counted(m.roots, display, roots, scans, done)
  }

  ghost predicate IsAnswer(m: Manifest, hash: Str -> Str, display: Path -> Str, roots: seq<RootMount>,
                           scans: seq<Scan>)
    requires |roots| == |scans|
  {
    exists done :: Answer(m, hash, display, roots, scans, done)
  }

  lemma {:induction false} AnchorMountIs(roots: seq<RootMount>, k: nat)
    requires k < |roots| && roots[k].primary && forall j :: 0 <= j < k ==> !roots[j].primary
    ensures AnchorMount(roots) == roots[k].mount
  {
    if k > 0 { AnchorMountIs(roots[1..], k - 1); }
  }

  lemma TalliesAreCounted(infos: seq<RootInfo>, entries: seq<FileEntry>, roots: seq<RootMount>, scans: seq<Scan>,
                          display: Path -> Str, done: set<nat>)
    requires Inputs(roots, scans) && done == Done(roots, scans, |roots|)
    requires ExactTallies(infos, entries, Log(roots, scans, |roots|), roots, scans, display)
    ensures Counted(infos, display, roots, scans, done)
  {
    hide Scanned, Log, Provided, SizeOf, Kept, KeptBytes, ScannedBefore, DistinctPaths, TotalFiles, TotalBytes,
      TotalSize;
    DoneCount(roots, scans, |roots|);
    forall k: nat | k in done && k < |roots|
      ensures |Before(done, k)| == ScannedBefore(roots, scans, k) && Scanned(roots, scans, k)
      ensures ExactInfo(roots[k], display, Provided(Log(roots, scans, |roots|), k)) ==
        RootInfo(roots[k].mount, display(roots[k].path), roots[k].primary,
                 KeptBytes(roots, scans, done, k, |scans[k].entries|),
                 |Kept(roots, scans, done, k, |scans[k].entries|)|)
    {
      DoneCount(roots, scans, k);
      assert Before(done, k) == Done(roots, scans, k);
      ProvidedIsKept(roots, scans, done, k);
    }
  }

  lemma ReturnedIsAnswer(m: Manifest, hash: Str -> Str, display: Path -> Str, roots: seq<RootMount>, scans: seq<Scan>)
    requires Inputs(roots, scans) && Returned(hash, display, roots, scans, m)
    ensures Answer(m, hash, display, roots, scans, Done(roots, scans, |roots|))
  {
    var done := Done(roots, scans, |roots|);
    hide Done, Turn, Gathers, PrevailingEntries, Log, ExactTallies, Counted, ScannedBefore, RootPreimage,
      DistinctPaths, AnchorMount, HashOf;
    HashOfPreimage(hash, m.entries);
    DoneTurns(roots, scans);
    PrevailingGathers(m.entries, roots, scans, done);
    DoneCount(roots, scans, |roots|);
    forall k | 0 <= k < |roots| && roots[k].primary && forall j :: 0 <= j < k ==> !roots[j].primary
      ensures m.anchorMount == roots[k].mount {
      AnchorMountIs(roots, k);
    }
    if !(ScannedBefore(roots, scans, |roots|) == 1 && AnchorMount(roots) == []) {
      TalliesAreCounted(m.roots, m.entries, roots, scans, display, done);
    }
  }

  ghost predicate AnyPrimary(roots: seq<RootMount>, done: set<nat>) {
    exists k :: k in done && k < |roots| && roots[k].primary
  }

  ghost predicate AnyClaimed(roots: seq<RootMount>, scans: seq<Scan>, done: set<nat>)
    requires |roots| == |scans|
  {
    exists place :: Claimed(roots, scans, done, place)
  }

  ghost predicate AnyTwins(lower: Str -> Str, roots: seq<RootMount>, scans: seq<Scan>, done: set<nat>)
    requires |roots| == |scans|
  {
    exists a, b :: CaseTwins(lower, roots, scans, done, a, b)
  }

  /** What a pass answers, and when it refuses, for the roots that are scanned. */
  ghost predicate Judged(r: Result<Manifest, ScanError>, hash: Str -> Str, lower: Str -> Str, display: Path -> Str,
                         roots: seq<RootMount>, scans: seq<Scan>, done: set<nat>)
    requires |roots| == |scans|
  {
    var primary, claimed := AnyPrimary(roots, done), AnyClaimed(roots, scans, done);
    && Turn(roots, scans, done)
    && (r == Err(PrimaryNotScanned) <==> !primary)
    && (r.Err? && r.error.TwoProviders? <==> primary && claimed)
    && (r.Err? && r.error.TwoProviders? ==> Claimed(roots, scans, done, r.error.path))
    && (r.Err? && r.error.CaseConflict? <==> primary && !claimed && AnyTwins(lower, roots, scans, done))
    && (r.Err? && r.error.CaseConflict? ==> CaseTwins(lower, roots, scans, done, r.error.a, r.error.b))
    && (r.Ok? ==> Answer(r.value, hash, display, roots, scans, done))
  }

  /** Two listed places that differ by case alone. */
  ghost predicate CaseTwins(lower: Str -> Str, roots: seq<RootMount>, scans: seq<Scan>, done: set<nat>, a: Str, b: Str)
    requires |roots| == |scans|
  {
    a != b && lower(a) == lower(b) && SomewhereListed(roots, scans, done, a) && SomewhereListed(roots, scans, done, b)
  }

  /** Whether some pair of listed places differs by case alone, in the log and in the scans. */
  lemma ClashesAreTwins(lower: Str -> Str, roots: seq<RootMount>, scans: seq<Scan>, done: set<nat>)
    requires |roots| == |scans| && done == Done(roots, scans, |roots|)
    ensures forall a, b ::
      CaseClash(lower, Log(roots, scans, |roots|), a, b) <==> CaseTwins(lower, roots, scans, done, a, b)
    ensures AnyTwins(lower, roots, scans, done) <==> exists a, b :: CaseClash(lower, Log(roots, scans, |roots|), a, b)
  {
    hide Log, Viewed, SomewhereListed, Done;
    forall a, b
      ensures CaseClash(lower, Log(roots, scans, |roots|), a, b) <==> CaseTwins(lower, roots, scans, done, a, b) {
      ViewedIsListed(roots, scans, done, a);
      ViewedIsListed(roots, scans, done, b);
    }
  }

  lemma ConflictsAreClaims(roots: seq<RootMount>, scans: seq<Scan>, done: set<nat>)
    requires |roots| == |scans| && done == Done(roots, scans, |roots|)
    requires InRange(Log(roots, scans, |roots|), roots)
    ensures forall place ::
      ConflictOn(Log(roots, scans, |roots|), roots, place) <==> Claimed(roots, scans, done, place)
    ensures AllCompatible(Log(roots, scans, |roots|), roots) <==> !AnyClaimed(roots, scans, done)
  {
    var log := Log(roots, scans, |roots|);
    hide Log, Claimed, Done, InRange, Compatible;
    forall place ensures ConflictOn(log, roots, place) <==> Claimed(roots, scans, done, place) {
      ConflictIsClaim(roots, scans, done, place);
    }
    if !AllCompatible(log, roots) {
      var a, b :| a in log && b in log && !Compatible(roots, a, b);
      assert ConflictOn(log, roots, a.entry.path);
    }
  }

  lemma PrimaryIsDone(roots: seq<RootMount>, scans: seq<Scan>)
    requires |roots| == |scans|
    ensures PrimaryScanned(roots, scans) <==> AnyPrimary(roots, Done(roots, scans, |roots|))
  {
    hide Scanned;
    if k :| 0 <= k < |roots| && roots[k].primary && Scanned(roots, scans, k) {
      assert k in Done(roots, scans, |roots|);
    }
  }

  lemma OutcomeIsJudged(r: Result<Manifest, ScanError>, hash: Str -> Str, lower: Str -> Str, display: Path -> Str,
                        roots: seq<RootMount>, scans: seq<Scan>)
    requires Inputs(roots, scans) && InRange(Log(roots, scans, |roots|), roots)
    requires r == Err(PrimaryNotScanned) <==> !PrimaryScanned(roots, scans)
    requires (r.Err? && r.error.TwoProviders?) <==>
      PrimaryScanned(roots, scans) && !AllCompatible(Log(roots, scans, |roots|), roots)
    requires r.Err? && r.error.TwoProviders? ==> ConflictOn(Log(roots, scans, |roots|), roots, r.error.path)
    requires r.Err? && r.error.CaseConflict? ==> CaseClash(lower, Log(roots, scans, |roots|), r.error.a, r.error.b)
    requires r.Ok? <==> (PrimaryScanned(roots, scans) && AllCompatible(Log(roots, scans, |roots|), roots)
      && !exists a, b :: CaseClash(lower, Log(roots, scans, |roots|), a, b))
    requires r.Ok? ==> Returned(hash, display, roots, scans, r.value)
    ensures exists done :: Judged(r, hash, lower, display, roots, scans, done)
  {
    var done := Done(roots, scans, |roots|);
    DoneTurns(roots, scans);
    ClashesAreTwins(lower, roots, scans, done);
    ConflictsAreClaims(roots, scans, done);
    PrimaryIsDone(roots, scans);
    if r.Ok? {
      ReturnedIsAnswer(r.value, hash, display, roots, scans);
    }
    hide Log, Claimed, CaseTwins, CaseClash, Done, Answer, Turn, AllCompatible, ConflictOn, PrimaryScanned, Returned,
      Inputs, InRange, AnyPrimary, AnyClaimed, AnyTwins;
    assert Judged(r, hash, lower, display, roots, scans, done);
  }

  /** One sweep over every root. It fails when no primary root was scanned, when two roots claim
      a file and the earlier one may not yield it, or when two files differ only by case, in that
      order; otherwise every file comes from the last scanned root that lists it. */
  method ScanOnce(hash: Str -> Str, lower: Str -> Str, display: Path -> Str, roots: seq<RootMount>,
                  scans: seq<Scan>, baseCommit: Str, baseline: bool) returns (r: Result<Manifest, ScanError>)
    requires Inputs(roots, scans)
    ensures InRange(Log(roots, scans, |roots|), roots)
    ensures r == Err(PrimaryNotScanned) <==> !PrimaryScanned(roots, scans)
    ensures (r.Err? && r.error.TwoProviders?) <==>
      PrimaryScanned(roots, scans) && !AllCompatible(Log(roots, scans, |roots|), roots)
    ensures r.Err? && r.error.TwoProviders? ==> ConflictOn(Log(roots, scans, |roots|), roots, r.error.path)
    ensures r.Err? && r.error.CaseConflict? ==> CaseClash(lower, Log(roots, scans, |roots|), r.error.a, r.error.b)
    ensures r.Ok? <==> (PrimaryScanned(roots, scans) && AllCompatible(Log(roots, scans, |roots|), roots)
      && !exists a, b :: CaseClash(lower, Log(roots, scans, |roots|), a, b))
    ensures r.Ok? ==> Returned(hash, display, roots, scans, r.value)
    ensures r.Ok? ==> r.value.baseCommit == baseCommit && r.value.baseline == baseline
    ensures exists done :: Judged(r, hash, lower, display, roots, scans, done)
  {
    r := MergeAndCheck(hash, lower, display, roots, scans, baseCommit, baseline);
    OutcomeIsJudged(r, hash, lower, display, roots, scans);
  }

  /** The sweep, in the terms of the merge's log. */
  method MergeAndCheck(hash: Str -> Str, lower: Str -> Str, display: Path -> Str, roots: seq<RootMount>,
                       scans: seq<Scan>, baseCommit: Str, baseline: bool) returns (r: Result<Manifest, ScanError>)
    requires Inputs(roots, scans)
    ensures InRange(Log(roots, scans, |roots|), roots)
    ensures r == Err(PrimaryNotScanned) <==> !PrimaryScanned(roots, scans)
    ensures (r.Err? && r.error.TwoProviders?) <==>
      PrimaryScanned(roots, scans) && !AllCompatible(Log(roots, scans, |roots|), roots)
    ensures r.Err? && r.error.TwoProviders? ==> ConflictOn(Log(roots, scans, |roots|), roots, r.error.path)
    ensures r.Err? && r.error.CaseConflict? ==> CaseClash(lower, Log(roots, scans, |roots|), r.error.a, r.error.b)
    ensures r.Ok? <==> (PrimaryScanned(roots, scans) && AllCompatible(Log(roots, scans, |roots|), roots)
      && !exists a, b :: CaseClash(lower, Log(roots, scans, |roots|), a, b))
    ensures r.Ok? ==> Returned(hash, display, roots, scans, r.value)
    ensures r.Ok? ==> r.value.baseCommit == baseCommit && r.value.baseline == baseline
  {
    ghost var log := Log(roots, scans, |roots|);
    var m := MergeRoots(roots, scans, display);
    MergedSummary(m, roots, scans, display);
    hide *;
    var found := FindPrimary(roots, scans, m.infoAt);
    if !found {
      return Err(PrimaryNotScanned);
    }
    UniqueIffCompatible(m, log, roots);
    var repeat := FindRepeat(m);
    if repeat.Some? {
      return Err(TwoProviders(repeat.value));
    }
    ClashesAreCaseClashes(lower, m, log, roots);
    var clashes := FindCaseConflicts(lower, m.entries);
    if clashes != [] {
      assert clashes[0] in clashes;
      return Err(CaseConflict(clashes[0].0, clashes[0].1));
    }
    var single := |m.rootsInfo| == 1 && AnchorMount(roots) == [];
    var manifest := BuildMulti(hash, m.entries, baseCommit, baseline, AnchorMount(roots),
                               if single then [] else m.rootsInfo);
    NothingDropped(m.entries);
    SortedPrevails(m, log, roots);
    SortedTallies(m, roots, scans, display);
    NowReturned(hash, display, roots, scans, manifest);
    return Ok(manifest);
  }

  /** Only the primary root's files are ever marked as part of the baseline. */
  lemma BaselineIsPrimary(entries: seq<FileEntry>, roots: seq<RootMount>, scans: seq<Scan>, n: nat)
    requires n <= |roots| == |scans| && PrevailingEntries(entries, Log(roots, scans, n))
    ensures InRange(Log(roots, scans, n), roots)
    ensures forall e :: e in entries && e.inBaseline ==>
      exists c :: Prevails(Log(roots, scans, n), c) && c.entry == e && roots[c.root].primary
  {
    LogViews(roots, scans, n);
    forall e | e in entries && e.inBaseline
      ensures exists c :: Prevails(Log(roots, scans, n), c) && c.entry == e && roots[c.root].primary
    {
      var c :| Prevails(Log(roots, scans, n), c) && c.entry == e;
    }
  }

  lemma {:induction false} LogViews(roots: seq<RootMount>, scans: seq<Scan>, n: nat)
    requires n <= |roots| == |scans|
    ensures forall c :: c in Log(roots, scans, n) ==> c.root < n && (c.entry.inBaseline ==> roots[c.root].primary)
  {
    hide Skipped;
    if n > 0 { LogViews(roots, scans, n - 1); }
  }
}
