/** Scanning every root, sweeping over all of them once more, and trying again
    (`scan_all` in crates/rc-agent/src/multiroot.rs). */
module AllRoots {
  import opened Text
  import opened Sorting
  import opened Paths
  import opened Roots
  import opened Manifest
  import opened StatIndexes
  import opened Worktree
  import opened Passes
  import opened CrossSweep
  import Scanner
  import MultiRoot

  datatype AllError =
    | RootFailed(root: nat, cause: Scanner.ScanError)
    | Refused(error: MultiRoot.ScanError)
    | NotListed(root: nat)
    | Unstable(attempts: nat, changed: set<Str>)

  // ---- stats below the anchor ----

  lemma NotedMore(w: World, paths: seq<Str>, at: seq<nat>, stats: Stats, p: Str, t: nat)
    requires Noted(w, paths, at, stats)
    ensures Noted(w, paths + [p], at + [t],
                  if !w.skips(p) && p in w.h(t) then stats[p := StampOf(w.h(t)[p])] else stats)
  {
    var here := !w.skips(p) && p in w.h(t);
    var now := if here then stats[p := StampOf(w.h(t)[p])] else stats;
    forall x | x in now ensures exists j: nat :: NotedAt(w, paths + [p], at + [t], now, x, j) {
      if here && x == p {
        assert NotedAt(w, paths + [p], at + [t], now, x, |paths|);
      } else {
        var j: nat :| NotedAt(w, paths, at, stats, x, j);
        assert NotedAt(w, paths + [p], at + [t], now, x, j);
      }
    }
  }

  /** `stat_entries`, added to what was seen before. */
  method StatMore(w: World, paths: seq<Str>, before: Stats, ghost earlier: seq<Str>, ghost at0: seq<nat>, from: nat,
                  now: nat)
    returns (stats: Stats, later: nat, ghost at: seq<nat>)
    requires Noted(w, earlier, at0, before) && Moments(at0, from, now) && from <= now
    ensures later >= now && Noted(w, earlier + paths, at, stats) && Moments(at, from, later)
  {
    hide Noted;
    stats, later, at := before, now, at0;
    assert earlier + paths[..0] == earlier;
    for i := 0 to |paths|
      invariant later >= now && Noted(w, earlier + paths[..i], at, stats) && Moments(at, from, later)
    {
      later := Scanner.Wait(later);
      NotedMore(w, earlier + paths[..i], at, stats, paths[i], later);
      assert earlier + paths[..i] + [paths[i]] == earlier + paths[..i + 1];
      at := at + [later];
      if !w.skips(paths[i]) && paths[i] in w.h(later) {
        stats := stats[paths[i] := StampOf(w.h(later)[paths[i]])];
      }
    }
    assert paths[..|paths|] == paths;
  }

  // ---- which roots are scanned ----

  lemma {:induction false} LogPrefix(roots: seq<RootMount>, a: seq<MultiRoot.Scan>, b: seq<MultiRoot.Scan>, n: nat)
    requires n <= |roots| == |a| == |b| && forall j :: 0 <= j < n ==> a[j] == b[j]
    ensures MultiRoot.Log(roots, a, n) == MultiRoot.Log(roots, b, n)
  {
    hide *;
    if n == 0 {
      LogOfNone(roots, a);
      LogOfNone(roots, b);
    } else {
      LogPrefix(roots, a, b, n - 1);
      SameContributions(roots, a, b, n - 1);
      LogStep(roots, a, n - 1);
      LogStep(roots, b, n - 1);
    }
  }

  lemma LogOfNone(roots: seq<RootMount>, scans: seq<MultiRoot.Scan>)
    requires |roots| == |scans|
    ensures MultiRoot.Log(roots, scans, 0) == []
  {
  }

  lemma SameContributions(roots: seq<RootMount>, a: seq<MultiRoot.Scan>, b: seq<MultiRoot.Scan>, k: nat)
    requires k < |roots| == |a| == |b| && a[k] == b[k]
    ensures MultiRoot.ContributionsOf(roots, a, k, |a[k].entries|) ==
      MultiRoot.ContributionsOf(roots, b, k, |b[k].entries|)
  {
    hide MultiRoot.ContributionsOf;
  }

  lemma LogStep(roots: seq<RootMount>, scans: seq<MultiRoot.Scan>, k: nat)
    requires k < |roots| == |scans|
    ensures MultiRoot.Log(roots, scans, k + 1) ==
      if MultiRoot.Skipped(roots, k, MultiRoot.CoveredBy(MultiRoot.Log(roots, scans, k))) then
        MultiRoot.Log(roots, scans, k)
      else MultiRoot.Log(roots, scans, k) + MultiRoot.ContributionsOf(roots, scans, k, |scans[k].entries|)
  {
    hide MultiRoot.Skipped;
  }

  lemma ScannedPrefix(roots: seq<RootMount>, a: seq<MultiRoot.Scan>, b: seq<MultiRoot.Scan>, j: nat)
    requires j < |roots| == |a| == |b| && forall i :: 0 <= i < j ==> a[i] == b[i]
    ensures MultiRoot.Scanned(roots, a, j) == MultiRoot.Scanned(roots, b, j)
  {
    LogPrefix(roots, a, b, j);
  }

  /** Where the entries git itself listed lie below the anchor. */
  function Covers(root: RootMount, entries: seq<FileEntry>, included: set<Str>): set<Str> {
    set e | e in entries && e.path !in included :: Anchored(root.mount, e.path)
  }

  method CoverWith(root: RootMount, entries: seq<FileEntry>, included: set<Str>, covered: set<Str>)
    returns (r: set<Str>)
    ensures r == covered + Covers(root, entries, included)
  {
    r := covered;
    for i := 0 to |entries|
      invariant r == covered + Covers(root, entries[..i], included)
    {
      assert entries[..i + 1] == entries[..i] + [entries[i]];
      if entries[i].path !in included {
        r := r + {Anchored(root.mount, entries[i].path)};
      }
    }
    assert entries[..|entries|] == entries;
  }

  lemma CoveredByTaken(roots: seq<RootMount>, scans: seq<MultiRoot.Scan>, k: nat, covered: set<Str>)
    requires k < |roots| == |scans| && covered == MultiRoot.CoveredBy(MultiRoot.Log(roots, scans, k))
    requires MultiRoot.Scanned(roots, scans, k)
    ensures MultiRoot.CoveredBy(MultiRoot.Log(roots, scans, k + 1)) ==
      covered + Covers(roots[k], scans[k].entries, scans[k].included)
  {
    LogStep(roots, scans, k);
    var before := MultiRoot.Log(roots, scans, k);
    var more := MultiRoot.ContributionsOf(roots, scans, k, |scans[k].entries|);
    hide MultiRoot.Log, MultiRoot.Skipped;
    forall x ensures x in MultiRoot.CoveredBy(more) <==> x in Covers(roots[k], scans[k].entries, scans[k].included) {
      if x in MultiRoot.CoveredBy(more) {
        var i :| 0 <= i < |more| && !more[i].byInclude && more[i].entry.path == x;
        assert scans[k].entries[i] in scans[k].entries;
      }
      if x in Covers(roots[k], scans[k].entries, scans[k].included) {
        var i :| 0 <= i < |more| && scans[k].entries[i].path !in scans[k].included
          && Anchored(roots[k].mount, scans[k].entries[i].path) == x;
        assert more[i] in more && !more[i].byInclude;
      }
    }
    assert MultiRoot.CoveredBy(before + more) == MultiRoot.CoveredBy(before) + MultiRoot.CoveredBy(more);
  }

  method AnchoredPaths(root: RootMount, entries: seq<FileEntry>) returns (r: seq<Str>)
    ensures |r| == |entries| && forall i :: 0 <= i < |r| ==> r[i] == Anchored(root.mount, entries[i].path)
  {
    r := [];
    for i := 0 to |entries|
      invariant |r| == i && forall j :: 0 <= j < i ==> r[j] == Anchored(root.mount, entries[j].path)
    {
      r := r + [Anchored(root.mount, entries[i].path)];
    }
  }

  // ---- the first pass over the roots ----

  /** A scanned root's pass, within these moments. */
  ghost predicate Done(w: World, scans: seq<MultiRoot.Scan>, passes: seq<Pass>, j: nat, start: nat, later: nat)
    requires j < |w.roots| == |w.sides| == |scans| == |passes|
  {
    && Observed(w.sides[j], passes[j]) && Settled(passes[j])
    && start <= passes[j].start && passes[j].end <= later
    && scans[j].entries == EntriesOf(w.sides[j], passes[j])
  }

  /** The first `k` roots were judged in turn. */
  ghost predicate Judged(w: World, scans: seq<MultiRoot.Scan>, taken: seq<bool>, covered: set<Str>, k: nat) {
    && k == |taken| <= |w.roots| == |scans|
    && covered == MultiRoot.CoveredBy(MultiRoot.Log(w.roots, scans, k))
    && (forall j: nat :: j < k ==> (taken[j] <==> MultiRoot.Scanned(w.roots, scans, j)))
  }

  ghost predicate AllDone(w: World, scans: seq<MultiRoot.Scan>, passes: seq<Pass>, taken: seq<bool>, start: nat,
                          later: nat)
    requires |taken| <= |w.roots| == |w.sides| == |scans| == |passes|
  {
    forall j: nat :: j < |taken| && taken[j] ==> Done(w, scans, passes, j, start, later)
  }

  ghost predicate AllDistinct(scans: seq<MultiRoot.Scan>) {
    forall j: nat :: j < |scans| ==> DistinctPaths(scans[j].entries)
  }

  /** And the ones not covered were scanned. */
  ghost predicate SoFar(w: World, scans: seq<MultiRoot.Scan>, passes: seq<Pass>, taken: seq<bool>, covered: set<Str>,
                        k: nat, start: nat, later: nat) {
    && k == |taken| <= |w.roots| == |w.sides| == |scans| == |passes|
    && Judged(w, scans, taken, covered, k) && AllDone(w, scans, passes, taken, start, later) && AllDistinct(scans)
  }

  ghost predicate TakenPath(w: World, scans: seq<MultiRoot.Scan>, taken: seq<bool>, j: nat, path: Str)
    requires |taken| <= |w.roots| == |scans|
  {
    j < |taken| && taken[j] && exists e :: e in scans[j].entries && Anchored(w.roots[j].mount, e.path) == path
  }

  ghost predicate PathsSoFar(w: World, scans: seq<MultiRoot.Scan>, taken: seq<bool>, paths: seq<Str>)
    requires |taken| <= |w.roots| == |scans|
  {
    forall p :: p in paths <==> exists j: nat :: TakenPath(w, scans, taken, j, p)
  }

  lemma SkipNext(w: World, scans: seq<MultiRoot.Scan>, passes: seq<Pass>, taken: seq<bool>, covered: set<Str>, k: nat,
                 start: nat, later: nat)
    requires SoFar(w, scans, passes, taken, covered, k, start, later) && k < |w.roots|
    requires MultiRoot.Skipped(w.roots, k, covered)
    ensures SoFar(w, scans, passes, taken + [false], covered, k + 1, start, later)
  {
    hide *;
    SoFarParts(w, scans, passes, taken, covered, k, start, later);
    SkipJudged(w, scans, taken, covered, k);
    SkipDone(w, scans, passes, taken, start, later);
    SoFarOf(w, scans, passes, taken + [false], covered, start, later);
  }

  lemma SkipJudged(w: World, scans: seq<MultiRoot.Scan>, taken: seq<bool>, covered: set<Str>, k: nat)
    requires k < |w.roots| && Judged(w, scans, taken, covered, k) && MultiRoot.Skipped(w.roots, k, covered)
    ensures Judged(w, scans, taken + [false], covered, k + 1)
  {
    LogStep(w.roots, scans, k);
    assert !MultiRoot.Scanned(w.roots, scans, k);
    hide MultiRoot.Log, MultiRoot.Skipped, MultiRoot.Scanned, MultiRoot.CoveredBy;
  }

  lemma SkipDone(w: World, scans: seq<MultiRoot.Scan>, passes: seq<Pass>, taken: seq<bool>, start: nat, later: nat)
    requires |taken| < |w.roots| == |w.sides| == |scans| == |passes| && AllDone(w, scans, passes, taken, start, later)
    ensures AllDone(w, scans, passes, taken + [false], start, later)
  {
    hide Done;
  }

  lemma TakeNext(w: World, scans: seq<MultiRoot.Scan>, passes: seq<Pass>, taken: seq<bool>, covered: set<Str>, k: nat,
                 start: nat, now: nat, scan: MultiRoot.Scan, q: Pass, later: nat)
    requires SoFar(w, scans, passes, taken, covered, k, start, now) && k < |w.roots|
    requires !MultiRoot.Skipped(w.roots, k, covered) && start <= now <= later
    requires Observed(w.sides[k], q) && Settled(q) && now <= q.start && q.end <= later
    requires scan.entries == EntriesOf(w.sides[k], q) && DistinctPaths(scan.entries)
    ensures SoFar(w, scans[k := scan], passes[k := q], taken + [true],
                  covered + Covers(w.roots[k], scan.entries, scan.included), k + 1, start, later)
  {
    hide *;
    SoFarParts(w, scans, passes, taken, covered, k, start, now);
    TakeJudged(w, scans, taken, covered, k, scan);
    TakeDone(w, scans, passes, taken, k, scan, q, start, now, later);
    TakeDistinct(scans, k, scan);
    SoFarOf(w, scans[k := scan], passes[k := q], taken + [true],
            covered + Covers(w.roots[k], scan.entries, scan.included), start, later);
  }

  lemma SoFarParts(w: World, scans: seq<MultiRoot.Scan>, passes: seq<Pass>, taken: seq<bool>, covered: set<Str>, k: nat,
                   start: nat, later: nat)
    requires SoFar(w, scans, passes, taken, covered, k, start, later)
    ensures k == |taken| <= |w.roots| == |w.sides| == |scans| == |passes|
    ensures Judged(w, scans, taken, covered, k) && AllDone(w, scans, passes, taken, start, later) && AllDistinct(scans)
  {
    hide Judged, AllDone, AllDistinct;
  }

  lemma SoFarOf(w: World, scans: seq<MultiRoot.Scan>, passes: seq<Pass>, taken: seq<bool>, covered: set<Str>,
                start: nat, later: nat)
    requires |taken| <= |w.roots| == |w.sides| == |scans| == |passes|
    requires Judged(w, scans, taken, covered, |taken|) && AllDone(w, scans, passes, taken, start, later)
    requires AllDistinct(scans)
    ensures SoFar(w, scans, passes, taken, covered, |taken|, start, later)
  {
    hide Judged, AllDone, AllDistinct;
  }

  lemma TakeJudged(w: World, scans: seq<MultiRoot.Scan>, taken: seq<bool>, covered: set<Str>, k: nat,
                   scan: MultiRoot.Scan)
    requires k < |w.roots| && Judged(w, scans, taken, covered, k) && !MultiRoot.Skipped(w.roots, k, covered)
    ensures Judged(w, scans[k := scan], taken + [true], covered +
      Covers(w.roots[k], scan.entries, scan.included), k + 1)
  {
    var more := scans[k := scan];
    assert MultiRoot.Scanned(w.roots, scans, k);
    hide MultiRoot.Skipped, MultiRoot.CoveredBy, MultiRoot.Log;
    ScannedStays(w.roots, scans, k, scan);
    hide MultiRoot.Scanned, Covers;
    CoveredByTaken(w.roots, more, k, covered);
  }

  lemma TakeDone(w: World, scans: seq<MultiRoot.Scan>, passes: seq<Pass>, taken: seq<bool>, k: nat,
                 scan: MultiRoot.Scan, q: Pass, start: nat, now: nat, later: nat)
    requires k == |taken| < |w.roots| == |w.sides| == |scans| == |passes| && start <= now <= later
    requires AllDone(w, scans, passes, taken, start, now)
    requires Observed(w.sides[k], q) && Settled(q) && now <= q.start && q.end <= later
    requires scan.entries == EntriesOf(w.sides[k], q)
    ensures AllDone(w, scans[k := scan], passes[k := q], taken + [true], start, later)
  {
    hide Observed, Settled, EntriesOf, Done;
    forall j: nat | j < k && taken[j] ensures Done(w, scans[k := scan], passes[k := q], j, start, later) {
      DoneStays(w, scans, passes, k, scan, q, j, start, now, later);
    }
    DoneNow(w, scans[k := scan], passes[k := q], k, start, now, later);
  }

  lemma TakeDistinct(scans: seq<MultiRoot.Scan>, k: nat, scan: MultiRoot.Scan)
    requires k < |scans| && AllDistinct(scans) && DistinctPaths(scan.entries)
    ensures AllDistinct(scans[k := scan])
  {
    hide DistinctPaths;
  }

  lemma ScannedStays(roots: seq<RootMount>, scans: seq<MultiRoot.Scan>, k: nat, scan: MultiRoot.Scan)
    requires k < |roots| == |scans|
    ensures forall j: nat :: j <= k ==>
      MultiRoot.Scanned(roots, scans[k := scan], j) == MultiRoot.Scanned(roots, scans, j)
    ensures MultiRoot.Log(roots, scans[k := scan], k) == MultiRoot.Log(roots, scans, k)
  {
    hide MultiRoot.Scanned, MultiRoot.Log;
    LogPrefix(roots, scans, scans[k := scan], k);
    forall j: nat | j <= k ensures MultiRoot.Scanned(roots, scans[k := scan], j) == MultiRoot.Scanned(roots, scans, j) {
      ScannedPrefix(roots, scans, scans[k := scan], j);
    }
  }

  lemma DoneStays(w: World, scans: seq<MultiRoot.Scan>, passes: seq<Pass>, k: nat, scan: MultiRoot.Scan, q: Pass,
                  j: nat, start: nat, now: nat, later: nat)
    requires j < k < |w.roots| == |w.sides| == |scans| == |passes| && now <= later
    requires Done(w, scans, passes, j, start, now)
    ensures Done(w, scans[k := scan], passes[k := q], j, start, later)
  {
    hide Observed, Settled, EntriesOf;
  }

  lemma DoneNow(w: World, scans: seq<MultiRoot.Scan>, passes: seq<Pass>, k: nat, start: nat, now: nat, later: nat)
    requires k < |w.roots| == |w.sides| == |scans| == |passes| && start <= now
    requires Observed(w.sides[k], passes[k]) && Settled(passes[k]) && now <= passes[k].start && passes[k].end <= later
    requires scans[k].entries == EntriesOf(w.sides[k], passes[k])
    ensures Done(w, scans, passes, k, start, later)
  {
    hide Observed, Settled, EntriesOf;
  }

  lemma PathsSkip(w: World, scans: seq<MultiRoot.Scan>, taken: seq<bool>, paths: seq<Str>)
    requires |taken| < |w.roots| == |scans| && PathsSoFar(w, scans, taken, paths)
    ensures PathsSoFar(w, scans, taken + [false], paths)
  {
    forall p, j: nat ensures TakenPath(w, scans, taken + [false], j, p) <==> TakenPath(w, scans, taken, j, p) {
    }
    hide TakenPath;
  }

  lemma PathsTake(w: World, scans: seq<MultiRoot.Scan>, taken: seq<bool>, paths: seq<Str>, k: nat, scan: MultiRoot.Scan,
                  more: seq<Str>)
    requires k == |taken| < |w.roots| == |scans| && PathsSoFar(w, scans, taken, paths)
    requires |more| == |scan.entries|
    requires forall i :: 0 <= i < |more| ==> more[i] == Anchored(w.roots[k].mount, scan.entries[i].path)
    ensures PathsSoFar(w, scans[k := scan], taken + [true], paths + more)
  {
    var scans' := scans[k := scan];
    forall p ensures p in paths + more <==> exists j: nat :: TakenPath(w, scans', taken + [true], j, p) {
      if p in more {
        var i :| 0 <= i < |more| && more[i] == p;
        assert scan.entries[i] in scan.entries;
        assert TakenPath(w, scans', taken + [true], k, p);
      } else if p in paths {
        var j: nat :| TakenPath(w, scans, taken, j, p);
        assert TakenPath(w, scans', taken + [true], j, p);
      }
      if j: nat :| TakenPath(w, scans', taken + [true], j, p) {
        if j < k {
          assert TakenPath(w, scans, taken, j, p);
        } else {
          var e :| e in scan.entries && Anchored(w.roots[k].mount, e.path) == p;
          var i :| 0 <= i < |scan.entries| && scan.entries[i] == e;
          assert more[i] == p;
        }
      }
    }
  }

  // ---- indexes ----

  /** What every root's reading and history must be like for its index to be believed: no stamp
      returns after a change, or nothing is edited meanwhile and a stamp that returns brings its
      content back. */
  ghost predicate Sound(w: World, from: nat, to: nat) {
    forall k: nat :: k < |w.sides| ==> Reads(w.sides[k]) && Trusted(w.sides[k], from, to)
  }

  lemma SoundWithin(w: World, from: nat, to: nat, a: nat, b: nat)
    requires from <= a <= b <= to
    ensures Sound(w, from, to) ==> Sound(w, a, b)
  {
    hide Reads, Trusted;
    if Sound(w, from, to) {
      forall k: nat | k < |w.sides| ensures Trusted(w.sides[k], a, b) {
        TrustedWithin(w.sides[k], from, to, a, b);
      }
    }
  }

  ghost predicate AllTrue(w: World, rows: seq<Rows>, now: nat) {
    |rows| == |w.sides| && forall k: nat :: k < |rows| ==> Truthful(w.sides[k], rows[k], now)
  }

  ghost function RowsOf(indexes: seq<StatIndex>): (r: seq<Rows>)
    reads indexes
    ensures |r| == |indexes|
    ensures forall i :: 0 <= i < |r| ==> r[i] == indexes[i].rows
  {
    if indexes == [] then [] else RowsOf(indexes[..|indexes| - 1]) + [indexes[|indexes| - 1].rows]
  }

  ghost predicate PassesTrue(w: World, passes: seq<Pass>, taken: seq<bool>)
    requires |taken| <= |passes| == |w.sides|
  {
    forall j: nat :: j < |taken| && taken[j] ==> Truthful(w.sides[j], passes[j].known, passes[j].middle)
  }

  predicate Apart(indexes: seq<StatIndex>) {
    forall i, j :: 0 <= i < j < |indexes| ==> indexes[i] != indexes[j]
  }

  lemma ApartFrom(indexes: seq<StatIndex>, k: nat)
    requires Apart(indexes) && k < |indexes|
    ensures forall i :: 0 <= i < |indexes| && i != k ==> indexes[i] != indexes[k]
  {
  }

  /** One root's scan keeps what is known of all indexes. */
  lemma TruthTurn(w: World, first: seq<Rows>, rows: seq<Rows>, k: nat, row: Rows, q: Pass, ok: bool, now: nat,
                  turn: nat, later: nat)
    requires k < |w.sides| == |rows| && now <= turn <= later
    requires Sound(w, now, turn) && AllTrue(w, first, now) ==> AllTrue(w, rows, turn)
    requires var s := w.sides[k];
      Reads(s) && Truthful(s, rows[k], turn) && Trusted(s, turn, later) ==>
        Truthful(s, row, later) && (ok ==> Truthful(s, q.known, q.middle))
    ensures Sound(w, now, later) && AllTrue(w, first, now) ==>
      AllTrue(w, rows[k := row], later) && (ok ==> Truthful(w.sides[k], q.known, q.middle))
  {
    hide Truthful, Reads, Trusted;
    if Sound(w, now, later) && AllTrue(w, first, now) {
      SoundWithin(w, now, later, now, turn);
      TrustedWithin(w.sides[k], now, later, turn, later);
      forall i: nat | i < |rows| ensures Truthful(w.sides[i], rows[k := row][i], later) {
        if i != k { TruthfulLater(w.sides[i], rows[i], turn, later); }
      }
    }
  }

  lemma PassesSkip(w: World, passes: seq<Pass>, taken: seq<bool>)
    requires |taken| < |passes| == |w.sides|
    ensures PassesTrue(w, passes, taken) ==> PassesTrue(w, passes, taken + [false])
  {
    hide Truthful;
  }

  lemma PassesTake(w: World, passes: seq<Pass>, taken: seq<bool>, q: Pass)
    requires |taken| < |passes| == |w.sides|
    ensures PassesTrue(w, passes, taken) && Truthful(w.sides[|taken|], q.known, q.middle) ==>
      PassesTrue(w, passes[|taken| := q], taken + [true])
  {
    hide Truthful;
  }

  lemma SideOf(w: World, k: nat)
    requires OneTree(w) && k < |w.roots|
    ensures |w.sides| == |w.roots| && Lists(w.sides[k])
  {
    hide Sees, Lists;
  }

  /** What the loop tests is what decides. */
  lemma IsSkipped(roots: seq<RootMount>, k: nat, covered: set<Str>)
    requires k < |roots|
    ensures MultiRoot.Skipped(roots, k, covered) <==>
      roots[k].nested && Enclosing(roots, k).Some? && Anchored(roots[k].mount, MultiRoot.MANIFEST_FILE) in covered
  {
  }

  lemma Begin(w: World, scans: seq<MultiRoot.Scan>, passes: seq<Pass>, now: nat)
    requires |w.roots| == |w.sides| == |scans| == |passes|
    requires forall j :: 0 <= j < |scans| ==> scans[j] == MultiRoot.Scan([], {})
    ensures SoFar(w, scans, passes, [], {}, 0, now, now) && PathsSoFar(w, scans, [], [])
    ensures Noted(w, [], [], map[]) && Moments([], now, now) && PassesTrue(w, passes, [])
  {
  }

  lemma ScanIsWellFormed(s: Setting, q: Pass, m: Manifest)
    requires Observed(s, q) && Lists(s) && Scanner.Packaged(s, q, m)
    ensures m.entries == EntriesOf(s, q) && DistinctPaths(m.entries)
  {
    Scanner.CollectedAscends(s, q.listing, q.known, q.listing.paths, q.looks);
  }

  lemma CalmPart(s: Setting, now: nat, turn: nat, later: nat)
    requires now <= turn <= later
    ensures forall l :: Scanner.Calm(s, l, now, later) ==> Scanner.Calm(s, l, turn, later)
  {
    hide Scanner.Calm;
    forall l | Scanner.Calm(s, l, now, later) ensures Scanner.Calm(s, l, turn, later) {
      Scanner.CalmWithin(s, l, now, later, turn, later);
    }
  }

  lemma MomentsLater(at: seq<nat>, from: nat, now: nat, later: nat)
    requires Moments(at, from, now) && now <= later
    ensures Moments(at, from, later)
  {
  }

  function NoPass(): Pass {
    var none := Listing([], {}, {}, [], false);
    Pass(0, none, [], map[], 0, map[], [], 0, none, [], map[], 0)
  }

  /** In a calm time a root's scan fails only for names that differ by case. */
  ghost predicate FailsCalmly(w: World, e: AllError, from: nat, to: nat)
    requires e.RootFailed? && e.root < |w.sides|
  {
    forall l :: Reads(w.sides[e.root]) && Scanner.Calm(w.sides[e.root], l, from, to) ==> e.cause.CaseConflict?
  }

  lemma FailsNow(w: World, e: AllError, from: nat, turn: nat, to: nat)
    requires e.RootFailed? && e.root < |w.sides| && from <= turn <= to && FailsCalmly(w, e, turn, to)
    ensures FailsCalmly(w, e, from, to)
  {
    hide Reads, Scanner.Calm;
    CalmPart(w.sides[e.root], from, turn, to);
  }

  lemma ScanFails(w: World, k: nat, cause: Scanner.ScanError, turn: nat, later: nat)
    requires k < |w.sides|
    requires Reads(w.sides[k]) && (exists l :: Scanner.Calm(w.sides[k], l, turn, later)) ==> cause.CaseConflict?
    ensures FailsCalmly(w, RootFailed(k, cause), turn, later)
  {
    hide Reads, Scanner.Calm;
  }

  /** Every root that is not covered is scanned, and its entries are stated right after. */
  method ScanRoots(w: World, indexes: seq<StatIndex>, now: nat)
    returns (r: Result<seq<MultiRoot.Scan>, AllError>, taken: seq<bool>, base: (Str, bool), seen: Stats, later: nat,
             ghost passes: seq<Pass>, ghost seenPaths: seq<Str>, ghost seenAt: seq<nat>, ghost covered: set<Str>)
    requires OneTree(w) && |indexes| == |w.roots| == |w.sides| && Apart(indexes)
    modifies indexes
    ensures later >= now
    ensures r.Ok? ==> SoFar(w, r.value, passes, taken, covered, |w.roots|, now, later)
    ensures r.Ok? ==> |taken| == |r.value| == |w.roots| == |passes| && PathsSoFar(w, r.value, taken, seenPaths)
    ensures r.Ok? ==> Noted(w, seenPaths, seenAt, seen) && Moments(seenAt, now, later)
    ensures Sound(w, now, later) && AllTrue(w, old(RowsOf(indexes)), now) ==>
      AllTrue(w, RowsOf(indexes), later) && (r.Ok? ==> PassesTrue(w, passes, taken))
    ensures r.Err? ==> r.error.RootFailed? && r.error.root < |w.roots|
    ensures r.Err? ==> FailsCalmly(w, r.error, now, later)
  {
    hide *;
    ghost var first := RowsOf(indexes);
    ghost var rows := first;
    var scans := seq(|w.roots|, _ => MultiRoot.Scan([], {}));
    passes := seq(|w.roots|, _ => NoPass());
    var coveredNow: set<Str> := {};
    taken, seen, later, base := [], map[], now, ([], false);
    seenPaths, seenAt, covered := [], [], {};
    Begin(w, scans, passes, now);
    for k := 0 to |w.roots|
      invariant later >= now && |scans| == |passes| == |w.roots| && |taken| == k
      invariant SoFar(w, scans, passes, taken, coveredNow, k, now, later)
      invariant PathsSoFar(w, scans, taken, seenPaths)
      invariant Noted(w, seenPaths, seenAt, seen) && Moments(seenAt, now, later)
      invariant rows == RowsOf(indexes)
      invariant Sound(w, now, later) && AllTrue(w, first, now) ==>
        AllTrue(w, rows, later) && PassesTrue(w, passes, taken)
    {
      var root := w.roots[k];
      IsSkipped(w.roots, k, coveredNow);
      if root.nested && Enclosing(w.roots, k).Some? && Anchored(root.mount, MultiRoot.MANIFEST_FILE) in coveredNow {
        SkipNext(w, scans, passes, taken, coveredNow, k, now, later);
        PathsSkip(w, scans, taken, seenPaths);
        PassesSkip(w, passes, taken);
        taken := taken + [false];
        continue;
      }
      SideOf(w, k);
      ApartFrom(indexes, k);
      var one;
      ghost var q;
      ghost var turn := later;
      one, later, q := Scanner.ScanWith(w.sides[k], indexes[k], later);
      TruthTurn(w, first, rows, k, indexes[k].rows, q, one.Ok?, now, turn, later);
      rows := rows[k := indexes[k].rows];
      assert rows == RowsOf(indexes);
      if one.Err? {
        ScanFails(w, k, one.error, turn, later);
        FailsNow(w, RootFailed(k, one.error), now, turn, later);
        return Err(RootFailed(k, one.error)), taken, base, seen, later, passes, seenPaths, seenAt, {};
      }
      var entries, included := one.value.manifest.entries, one.value.included;
      ScanIsWellFormed(w.sides[k], q, one.value.manifest);
      TakeNext(w, scans, passes, taken, coveredNow, k, now, turn, MultiRoot.Scan(entries, included), q, later);
      PassesTake(w, passes, taken, q);
      coveredNow := CoverWith(root, entries, included, coveredNow);
      var more := AnchoredPaths(root, entries);
      PathsTake(w, scans, taken, seenPaths, k, MultiRoot.Scan(entries, included), more);
      ghost var scannedAt := later;
      MomentsLater(seenAt, now, turn, later);
      seen, later, seenAt := StatMore(w, more, seen, seenPaths, seenAt, now, later);
      seenPaths := seenPaths + more;
      scans := scans[k := MultiRoot.Scan(entries, included)];
      passes := passes[k := q];
      taken := taken + [true];
      SoFarLater(w, scans, passes, taken, coveredNow, k + 1, now, scannedAt, later);
      SoundWithin(w, now, later, now, scannedAt);
      SoundWithin(w, now, later, now, turn);
      TrueLater(w, rows, scannedAt, later);
      if root.primary {
        base := (one.value.manifest.baseCommit, one.value.manifest.baseline);
      }
    }
    r := Ok(scans);
    covered := coveredNow;
  }

  lemma SoFarLater(w: World, scans: seq<MultiRoot.Scan>, passes: seq<Pass>, taken: seq<bool>, covered: set<Str>, k: nat,
                   start: nat, now: nat, later: nat)
    requires SoFar(w, scans, passes, taken, covered, k, start, now) && now <= later
    ensures SoFar(w, scans, passes, taken, covered, k, start, later)
  {
    hide Observed, Settled, EntriesOf, AllDistinct, Judged;
    forall j: nat | j < k && taken[j] ensures Done(w, scans, passes, j, start, later) {
      assert Done(w, scans, passes, j, start, now);
    }
  }

  lemma TrueLater(w: World, rows: seq<Rows>, now: nat, later: nat)
    requires now <= later
    ensures AllTrue(w, rows, now) ==> AllTrue(w, rows, later)
  {
    hide Truthful;
    if AllTrue(w, rows, now) {
      forall k: nat | k < |rows| ensures Truthful(w.sides[k], rows[k], later) {
        TruthfulLater(w.sides[k], rows[k], now, later);
      }
    }
  }

  // ---- the sweep over all of them ----

  method AnchoredWanted(s: Setting, root: RootMount, paths: seq<Str>) returns (r: seq<Str>)
    ensures forall x :: x in r <==> exists p :: p in paths && !s.excluded(p) && Anchored(root.mount, p) == x
  {
    r := [];
    for i := 0 to |paths|
      invariant forall x :: x in r <==> exists p :: p in paths[..i] && !s.excluded(p) && Anchored(root.mount, p) == x
    {
      assert paths[..i + 1] == paths[..i] + [paths[i]];
      if !s.excluded(paths[i]) {
        r := r + [Anchored(root.mount, paths[i])];
      }
    }
    assert paths[..|paths|] == paths;
  }

  ghost predicate NamedPath(w: World, relistings: seq<Listing>, taken: seq<bool>, k: nat, path: Str)
    requires |taken| == |w.roots| == |w.sides| == |relistings|
  {
    && k < |taken| && taken[k]
    && exists p :: p in relistings[k].paths && !w.sides[k].excluded(p) && Anchored(w.roots[k].mount, p) == path
  }

  ghost predicate NamedBefore(w: World, relistings: seq<Listing>, taken: seq<bool>, n: nat, paths: seq<Str>)
    requires |taken| == |w.roots| == |w.sides| == |relistings|
  {
    forall x :: x in paths <==> exists k: nat :: k < n && NamedPath(w, relistings, taken, k, x)
  }

  ghost predicate ListedAt(w: World, relistings: seq<Listing>, k: nat, from: nat, to: nat)
    requires k < |w.sides| == |relistings|
  {
    exists t: nat :: from <= t <= to && w.sides[k].list(t) == Some(relistings[k])
  }

  ghost predicate ListedBefore(w: World, relistings: seq<Listing>, taken: seq<bool>, n: nat, from: nat, to: nat)
    requires n <= |taken| == |w.sides| == |relistings|
  {
    forall k: nat :: k < n && taken[k] ==> ListedAt(w, relistings, k, from, to)
  }

  lemma NamedNext(w: World, relistings: seq<Listing>, taken: seq<bool>, k: nat, paths: seq<Str>, listing: Listing,
                  more: seq<Str>)
    requires k < |taken| == |w.roots| == |w.sides| == |relistings| && NamedBefore(w, relistings, taken, k, paths)
    requires !taken[k] ==> more == []
    requires taken[k] ==> forall x :: x in more <==>
      exists p :: p in listing.paths && !w.sides[k].excluded(p) && Anchored(w.roots[k].mount, p) == x
    ensures NamedBefore(w, relistings[k := listing], taken, k + 1, paths + more)
  {
    var now := relistings[k := listing];
    forall x, j: nat | j < k ensures NamedPath(w, now, taken, j, x) <==> NamedPath(w, relistings, taken, j, x) {
    }
    forall x ensures x in paths + more <==> exists j: nat :: j < k + 1 && NamedPath(w, now, taken, j, x) {
      if x in more { assert NamedPath(w, now, taken, k, x); }
      if x in paths {
        var j: nat :| j < k && NamedPath(w, relistings, taken, j, x);
        assert NamedPath(w, now, taken, j, x);
      }
    }
  }

  lemma ListedNext(w: World, relistings: seq<Listing>, taken: seq<bool>, k: nat, from: nat, now: nat, t: nat,
                   listing: Listing)
    requires k < |taken| == |w.sides| == |relistings| && ListedBefore(w, relistings, taken, k, from, now)
    requires from <= now <= t && (taken[k] ==> w.sides[k].list(t) == Some(listing))
    ensures ListedBefore(w, relistings[k := listing], taken, k + 1, from, t)
  {
    forall j: nat | j < k + 1 && taken[j] ensures ListedAt(w, relistings[k := listing], j, from, t) {
      if j < k {
        assert ListedAt(w, relistings, j, from, now);
      }
    }
  }

  lemma NamedStart(w: World, relistings: seq<Listing>, taken: seq<bool>, now: nat)
    requires |taken| == |w.roots| == |w.sides| == |relistings|
    ensures NamedBefore(w, relistings, taken, 0, []) && ListedBefore(w, relistings, taken, 0, now, now)
  {
  }

  lemma NotCalmUnlisted(s: Setting, now: nat, t: nat, later: nat)
    requires now <= t <= later && s.list(t).None?
    ensures forall l :: !Scanner.Calm(s, l, now, later)
  {
    Scanner.NoCalm(s, now, t, later);
  }

  /** `enumerate`, for every root that was scanned. */
  method RelistRoots(w: World, taken: seq<bool>, now: nat)
    returns (r: Result<seq<Str>, AllError>, later: nat, ghost relistings: seq<Listing>)
    requires |taken| == |w.roots| == |w.sides|
    ensures later >= now && |relistings| == |w.roots|
    ensures r.Ok? ==> ListedBefore(w, relistings, taken, |taken|, now, later)
    ensures r.Ok? ==> NamedBefore(w, relistings, taken, |taken|, r.value)
    ensures r.Err? ==> r.error.NotListed? && r.error.root < |w.roots|
    ensures r.Err? ==> forall l :: !Scanner.Calm(w.sides[r.error.root], l, now, later)
  {
    hide *;
    var paths: seq<Str> := [];
    later := now;
    relistings := seq(|w.roots|, _ => Listing([], {}, {}, [], false));
    NamedStart(w, relistings, taken, now);
    for k := 0 to |w.roots|
      invariant later >= now && |relistings| == |w.roots|
      invariant ListedBefore(w, relistings, taken, k, now, later) && NamedBefore(w, relistings, taken, k, paths)
    {
      if !taken[k] {
        ListedNext(w, relistings, taken, k, now, later, later, relistings[k]);
        NamedNext(w, relistings, taken, k, paths, relistings[k], []);
        assert relistings[k := relistings[k]] == relistings && paths + [] == paths;
        continue;
      }
      ghost var before := later;
      later := Scanner.Wait(later);
      var listed := w.sides[k].list(later);
      if listed.None? {
        NotCalmUnlisted(w.sides[k], now, later, later);
        return Err(NotListed(k)), later, relistings;
      }
      var more := AnchoredWanted(w.sides[k], w.roots[k], listed.value.paths);
      ListedNext(w, relistings, taken, k, now, before, later, listed.value);
      NamedNext(w, relistings, taken, k, paths, listed.value, more);
      relistings := relistings[k := listed.value];
      paths := paths + more;
    }
    r := Ok(paths);
  }

  // ---- one round ----

  ghost predicate CalmWorld(w: World, listings: seq<Listing>, from: nat, to: nat) {
    |listings| == |w.sides| && forall k: nat :: k < |w.sides| ==> Scanner.Calm(w.sides[k], listings[k], from, to)
  }

  /** What a failed round means in a calm time: two roots, or two names, that cannot be merged. */
  predicate Unmergeable(e: AllError) {
    e.Refused? || (e.RootFailed? && e.cause.CaseConflict?)
  }

  ghost predicate AllRead(w: World) {
    forall k: nat :: k < |w.sides| ==> Reads(w.sides[k])
  }

  lemma FailedCalmly(w: World, e: AllError, from: nat, to: nat)
    requires |w.roots| == |w.sides| && e.RootFailed? && e.root < |w.roots| && FailsCalmly(w, e, from, to)
    ensures forall ls :: AllRead(w) && CalmWorld(w, ls, from, to) ==> Unmergeable(e)
  {
    hide Reads, Scanner.Calm;
    forall ls | AllRead(w) && CalmWorld(w, ls, from, to) ensures Unmergeable(e) {
      assert Reads(w.sides[e.root]) && Scanner.Calm(w.sides[e.root], ls[e.root], from, to);
    }
  }

  lemma UnlistedCalmly(w: World, e: AllError, from: nat, middle: nat, to: nat)
    requires |w.roots| == |w.sides| && e.NotListed? && e.root < |w.roots| && from <= middle <= to
    requires forall l :: !Scanner.Calm(w.sides[e.root], l, middle, to)
    ensures forall ls :: !CalmWorld(w, ls, from, to)
  {
    hide Scanner.Calm;
    forall ls ensures !CalmWorld(w, ls, from, to) {
      CalmPart(w.sides[e.root], from, middle, to);
    }
  }

  lemma TakenAreScanned(w: World, c: Round, passes: seq<Pass>, taken: seq<bool>, covered: set<Str>, start: nat,
                        now: nat)
    requires Shaped(w, c) && SoFar(w, c.scans, passes, taken, covered, |w.roots|, start, now)
    ensures forall k: nat :: k < |w.roots| ==> (taken[k] <==> MultiRoot.Scanned(w.roots, c.scans, k))
    ensures forall k: nat :: k < |w.roots| && taken[k] ==> Done(w, c.scans, passes, k, start, now)
    ensures AllDistinct(c.scans)
  {
    hide MultiRoot.Scanned, MultiRoot.Log, MultiRoot.CoveredBy, Done, AllDistinct;
  }

  lemma SeenPathsAre(w: World, c: Round, taken: seq<bool>)
    requires Shaped(w, c) && |taken| == |w.roots| && PathsSoFar(w, c.scans, taken, c.seenPaths)
    requires forall k: nat :: k < |w.roots| ==> (taken[k] <==> MultiRoot.Scanned(w.roots, c.scans, k))
    ensures forall p :: p in c.seenPaths <==> SomeEntry(w, c, p)
  {
    hide MultiRoot.Scanned;
    forall p, k: nat ensures EntryPath(w, c, k, p) <==> TakenPath(w, c.scans, taken, k, p) {
    }
    hide EntryPath, TakenPath;
  }

  lemma AfterPathsAre(w: World, c: Round, taken: seq<bool>)
    requires Shaped(w, c) && |taken| == |w.roots| && NamedBefore(w, c.relistings, taken, |taken|, c.afterPaths)
    requires forall k: nat :: k < |w.roots| ==> (taken[k] <==> MultiRoot.Scanned(w.roots, c.scans, k))
    ensures forall p :: p in c.afterPaths <==> SomeListed(w, c, p)
  {
    hide MultiRoot.Scanned;
    forall p, k: nat ensures ListedPath(w, c, k, p) <==> (k < |taken| && NamedPath(w, c.relistings, taken, k, p)) {
    }
    hide ListedPath, NamedPath;
  }

  lemma RootsAre(w: World, c: Round, taken: seq<bool>, start: nat, listedBy: nat)
    requires Shaped(w, c) && |taken| == |w.roots| && start <= c.middle <= listedBy <= c.end
    requires forall k: nat :: k < |w.roots| && taken[k] ==> Done(w, c.scans, c.passes, k, start, c.middle)
    requires ListedBefore(w, c.relistings, taken, |taken|, c.middle, listedBy)
    ensures forall k: nat :: k < |w.roots| && taken[k] ==> RootScanned(w, c, k, start) && Relisted(w, c, k)
  {
    hide Observed, Settled, EntriesOf;
    forall k: nat | k < |w.roots| && taken[k] ensures RootScanned(w, c, k, start) && Relisted(w, c, k) {
      assert Done(w, c.scans, c.passes, k, start, c.middle) && ListedAt(w, c.relistings, k, c.middle, listedBy);
      var t: nat :| c.middle <= t <= listedBy && w.sides[k].list(t) == Some(c.relistings[k]);
      assert c.middle <= t <= c.end;
    }
  }

  lemma RoundSwept(w: World, c: Round, taken: seq<bool>, covered: set<Str>, start: nat, listedBy: nat)
    requires Shaped(w, c) && start <= c.middle <= listedBy <= c.end
    requires SoFar(w, c.scans, c.passes, taken, covered, |w.roots|, start, c.middle)
    requires |taken| == |w.roots| && PathsSoFar(w, c.scans, taken, c.seenPaths)
    requires Noted(w, c.seenPaths, c.seenAt, c.seen) && Moments(c.seenAt, start, c.middle)
    requires ListedBefore(w, c.relistings, taken, |taken|, c.middle, listedBy)
    requires NamedBefore(w, c.relistings, taken, |taken|, c.afterPaths)
    requires Noted(w, c.afterPaths, c.afterAt, c.after) && Moments(c.afterAt, c.middle, c.end)
    ensures Swept(w, c, start)
  {
    TakenAreScanned(w, c, c.passes, taken, covered, start, c.middle);
    hide SoFar, PathsSoFar, Noted, Moments, ListedBefore, NamedBefore, MultiRoot.Scanned, Done, RootScanned,
      Relisted, SomeEntry, SomeListed;
    SeenPathsAre(w, c, taken);
    AfterPathsAre(w, c, taken);
    RootsAre(w, c, taken, start, listedBy);
  }

  lemma NothingNoted(w: World, now: nat)
    ensures Noted(w, [], [], map[]) && Moments([], now, now)
  {
  }

  lemma InputsAre(roots: seq<RootMount>, scans: seq<MultiRoot.Scan>)
    requires |roots| == |scans| && AllDistinct(scans)
    ensures MultiRoot.Inputs(roots, scans)
  {
    hide DistinctPaths;
  }

  /** Every scanned root's index told the truth when its pass began to hash. */
  ghost predicate KnownTrue(w: World, c: Round)
    requires Shaped(w, c)
  {
    forall k: nat :: k < |w.roots| && MultiRoot.Scanned(w.roots, c.scans, k) ==>
      Truthful(w.sides[k], c.passes[k].known, c.passes[k].middle)
  }

  lemma PassesKnownTrue(w: World, c: Round, taken: seq<bool>)
    requires Shaped(w, c) && |taken| == |w.roots|
    requires forall k: nat :: k < |w.roots| ==> (taken[k] <==> MultiRoot.Scanned(w.roots, c.scans, k))
    ensures PassesTrue(w, c.passes, taken) ==> KnownTrue(w, c)
  {
    hide MultiRoot.Scanned, Truthful;
  }

  function NoRound(): Round {
    Round([], [], [], [], map[], 0, [], [], [], map[], 0)
  }

  /** The entries of every scanned root say what its pass saw. */
  ghost predicate RootsTold(w: World, c: Round)
    requires Shaped(w, c)
  {
    forall k: nat :: k < |w.roots| && MultiRoot.Scanned(w.roots, c.scans, k) ==>
      EntriesTold(c.scans[k].entries, w.sides[k], c.passes[k].listing, c.passes[k].known, c.passes[k].looks)
  }

  lemma SweptIsTold(w: World, c: Round, start: nat)
    requires OneTree(w) && Shaped(w, c) && Swept(w, c, start)
    ensures RootsTold(w, c)
  {
    hide Sees, MultiRoot.Scanned, EntriesTold, SomeEntry, SomeListed, Noted, Moments, Relisted;
    forall k: nat | k < |w.roots| && MultiRoot.Scanned(w.roots, c.scans, k)
      ensures EntriesTold(c.scans[k].entries, w.sides[k], c.passes[k].listing, c.passes[k].known, c.passes[k].looks) {
      assert RootScanned(w, c, k, start);
      assert w.sides[k].list(c.passes[k].start) == Some(c.passes[k].listing);
      hide Swept, OneTree;
      Scanner.PassEntriesTold(w.sides[k], c.passes[k]);
    }
  }

  lemma MergedIsAnswer(hash: Str -> Str, display: Path -> Str, roots: seq<RootMount>, scans: seq<MultiRoot.Scan>,
                       m: Manifest)
    requires MultiRoot.Inputs(roots, scans) && MultiRoot.Returned(hash, display, roots, scans, m)
    ensures MultiRoot.IsAnswer(m, hash, display, roots, scans)
  {
    hide MultiRoot.Inputs, MultiRoot.Returned, MultiRoot.Answer;
    MultiRoot.ReturnedIsAnswer(m, hash, display, roots, scans);
  }

  /** `scan_once`. */
  method ScanRound(hash: Str -> Str, lower: Str -> Str, display: Path -> Str, w: World, indexes: seq<StatIndex>,
                   now: nat)
    returns (r: Result<(Manifest, set<Str>), AllError>, later: nat, ghost c: Round)
    requires OneTree(w) && |indexes| == |w.roots| == |w.sides| && Apart(indexes)
    modifies indexes
    ensures later >= now
    ensures r.Ok? ==> Swept(w, c, now) && c.end <= later && Shaped(w, c)
    ensures r.Ok? ==> MultiRoot.Returned(hash, display, w.roots, c.scans, r.value.0)
    ensures r.Ok? ==> RootsTold(w, c) && MultiRoot.IsAnswer(r.value.0, hash, display, w.roots, c.scans)
    ensures r.Ok? ==> r.value.1 == Scanner.Changed(c.seen, c.after)
    ensures Sound(w, now, later) && AllTrue(w, old(RowsOf(indexes)), now) ==>
      AllTrue(w, RowsOf(indexes), later) && (r.Ok? ==> KnownTrue(w, c))
    ensures r.Err? ==> !r.error.Unstable?
    ensures r.Err? ==> forall ls :: AllRead(w) && CalmWorld(w, ls, now, later) ==> Unmergeable(r.error)
  {
    hide *;
    c := NoRound();
    var scanning, taken, base, seen;
    ghost var passes, seenPaths, seenAt, covered;
    scanning, taken, base, seen, later, passes, seenPaths, seenAt, covered := ScanRoots(w, indexes, now);
    if scanning.Err? {
      FailedCalmly(w, scanning.error, now, later);
      return Err(scanning.error), later, c;
    }
    var scans := scanning.value;
    ghost var middle := later;
    c := Round(scans, passes, seenPaths, seenAt, seen, middle, seq(|w.roots|, _ => Listing([], {}, {}, [], false)),
      [], [],
               map[], middle);
    ShapedNow(w, c);
    TakenAreScanned(w, c, passes, taken, covered, now, middle);
    InputsAre(w.roots, scans);
    PassesKnownTrue(w, c, taken);
    var merged := MultiRoot.ScanOnce(hash, lower, display, w.roots, scans, base.0, base.1);
    if merged.Err? {
      UnmergeableNow(merged.error);
      return Err(Refused(merged.error)), later, c;
    }
    var listing;
    ghost var relistings;
    listing, later, relistings := RelistRoots(w, taken, later);
    ghost var listedBy := later;
    TrueLater(w, RowsOf(indexes), middle, later);
    SoundWithin(w, now, later, now, middle);
    if listing.Err? {
      UnlistedCalmly(w, listing.error, now, middle, later);
      return Err(listing.error), later, c;
    }
    NothingNoted(w, later);
    var after;
    ghost var afterAt;
    after, later, afterAt := StatMore(w, listing.value, map[], [], [], later, later);
    assert [] + listing.value == listing.value;
    MomentsFrom(afterAt, listedBy, middle, later);
    TrueLater(w, RowsOf(indexes), listedBy, later);
    SoundWithin(w, now, later, now, middle);
    ghost var known := c;
    c := Round(scans, passes, seenPaths, seenAt, seen, middle, relistings, listing.value, afterAt, after, later);
    ShapedNow(w, c);
    SameKnown(w, known, c);
    RoundSwept(w, c, taken, covered, now, listedBy);
    SweptIsTold(w, c, now);
    MergedIsAnswer(hash, display, w.roots, scans, merged.value);
    r := Ok((merged.value, Scanner.Changed(seen, after)));
  }

  lemma ShapedNow(w: World, c: Round)
    requires |w.roots| == |w.sides| == |c.scans| == |c.passes| == |c.relistings|
    ensures Shaped(w, c)
  {
  }

  lemma SameKnown(w: World, a: Round, b: Round)
    requires Shaped(w, a) && Shaped(w, b) && a.scans == b.scans && a.passes == b.passes
    ensures KnownTrue(w, a) ==> KnownTrue(w, b)
  {
  }

  lemma UnmergeableNow(e: MultiRoot.ScanError)
    ensures Unmergeable(Refused(e))
  {
  }

  lemma MomentsFrom(at: seq<nat>, from: nat, start: nat, to: nat)
    requires Moments(at, from, to) && start <= from
    ensures Moments(at, start, to)
  {
  }

  // ---- the loop ----

  /** Where the stat after a root's pass agrees with the pass, the entry is current when all roots are
      done. */
  ghost predicate CurrentWhereUnmoved(w: World, c: Round)
    requires Shaped(w, c)
  {
    forall k: nat, i: nat :: Unmoved(w, c, k, i) ==> Current(w, c, k, i)
  }

  lemma SweptTimes(w: World, c: Round, start: nat)
    requires Swept(w, c, start)
    ensures start <= c.middle <= c.end
  {
  }

  lemma CurrentNow(w: World, c: Round, start: nat)
    requires OneTree(w) && Swept(w, c, start) && Shaped(w, c) && Steady(c)
    ensures Sound(w, start, c.end) && KnownTrue(w, c) ==> CurrentWhereUnmoved(w, c)
  {
    SweptTimes(w, c, start);
    hide OneTree, Swept, Steady, Reads, Trusted, NoReturn, Truthful, MultiRoot.Scanned, Current;
    if Sound(w, start, c.end) && KnownTrue(w, c) {
      forall k: nat, i: nat | Unmoved(w, c, k, i) ensures Current(w, c, k, i) {
        TrustedNoReturn(w.sides[k], start, c.end, start, c.end);
        EntryInTheMiddle(w, c, start, k, i);
      }
    }
  }

  lemma SteadyNow(c: Round)
    requires Scanner.Changed(c.seen, c.after) == {}
    ensures Steady(c)
  {
    hide Get;
    forall p ensures Get(c.seen, p) == Get(c.after, p) {
      assert p !in Scanner.Changed(c.seen, c.after);
    }
  }

  lemma NotSteady(c: Round)
    requires Scanner.Changed(c.seen, c.after) != {}
    ensures !Steady(c)
  {
    hide Get;
    var p :| p in Scanner.Changed(c.seen, c.after);
    assert Get(c.seen, p) != Get(c.after, p);
  }

  lemma CalmPartRound(w: World, c: Round, ls: seq<Listing>, from: nat, start: nat, to: nat)
    requires OneTree(w) && Swept(w, c, start) && Shaped(w, c) && CalmWorld(w, ls, from, to)
    requires from <= start && c.end <= to
    ensures CalmRound(w, c, start)
  {
    hide OneTree, Quiet, RootScanned, MultiRoot.Scanned, Noted, SomeEntry, SomeListed;
    forall k: nat | k < |w.roots| && MultiRoot.Scanned(w.roots, c.scans, k)
      ensures Scanner.Calm(w.sides[k], c.relistings[k], start, c.end)
    {
      assert Relisted(w, c, k) && Scanner.Calm(w.sides[k], ls[k], from, to);
      var t: nat :| c.middle <= t <= c.end && w.sides[k].list(t) == Some(c.relistings[k]);
      Scanner.CalmWithin(w.sides[k], ls[k], from, to, start, c.end);
    }
  }

  /** In a calm time a round is steady exactly when nothing blocks it. */
  lemma CalmJudged(w: World, c: Round, from: nat, start: nat, to: nat)
    requires OneTree(w) && Swept(w, c, start) && Shaped(w, c) && from <= start && c.end <= to
    ensures forall ls :: CalmWorld(w, ls, from, to) ==> (Steady(c) <==> !Blocked(w, c))
  {
    hide OneTree, Swept, Steady, Blocked, CalmWorld, CalmRound;
    forall ls | CalmWorld(w, ls, from, to) ensures Steady(c) <==> !Blocked(w, c) {
      CalmPartRound(w, c, ls, from, start, to);
      CalmExactly(w, c, start);
    }
  }

  lemma CalmWorldPart(w: World, from: nat, turn: nat, to: nat)
    requires from <= turn <= to
    ensures forall ls :: CalmWorld(w, ls, from, to) ==> CalmWorld(w, ls, turn, to)
  {
    hide Scanner.Calm;
    forall ls, k: nat | CalmWorld(w, ls, from, to) && k < |w.sides| ensures Scanner.Calm(w.sides[k], ls[k], turn, to) {
      assert Scanner.Calm(w.sides[k], ls[k], from, to);
      Scanner.CalmWithin(w.sides[k], ls[k], from, to, turn, to);
    }
  }

  /** `scan_all`: up to three rounds. An accepted one saw the same in both sweeps. In a calm time it is
      accepted exactly when nothing is listed that no root takes. */
  method ScanAll(hash: Str -> Str, lower: Str -> Str, display: Path -> Str, w: World, indexes: seq<StatIndex>, now: nat)
    returns (r: Result<Manifest, AllError>, later: nat, ghost c: Round, ghost start: nat)
    requires OneTree(w) && |indexes| == |w.roots| == |w.sides| && Apart(indexes)
    modifies indexes
    ensures later >= now
    // what an accepted scan is
    ensures r.Ok? ==> Shaped(w, c) && now <= start && Swept(w, c, start) && c.end <= later && Steady(c)
    ensures r.Ok? ==> MultiRoot.Returned(hash, display, w.roots, c.scans, r.value)
    ensures r.Ok? ==> RootsTold(w, c) && MultiRoot.IsAnswer(r.value, hash, display, w.roots, c.scans)
    // what it is worth
    ensures Sound(w, now, later) && AllTrue(w, old(RowsOf(indexes)), now) ==>
      AllTrue(w, RowsOf(indexes), later) && (r.Ok? ==> CurrentWhereUnmoved(w, c))
    // what a refused one means
    ensures r.Err? && r.error.Unstable? ==> r.error.attempts == Scanner.MAX_SCAN_ATTEMPTS && r.error.changed != {}
    ensures r.Err? && r.error.Unstable? ==> Shaped(w, c) && now <= start && Swept(w, c, start) && c.end <= later
    ensures forall ls :: AllRead(w) && CalmWorld(w, ls, now, later) ==>
      if r.Ok? then !Blocked(w, c)
      else if r.error.Unstable? then Blocked(w, c)
      else Unmergeable(r.error)
  {
    hide OneTree, Apart, Shaped, Swept, Steady, MultiRoot.Returned, MultiRoot.IsAnswer, RootsTold, Sound, AllTrue,
      CurrentWhereUnmoved, AllRead, CalmWorld, Blocked, Unmergeable, KnownTrue, Scanner.Changed;
    ghost var first := RowsOf(indexes);
    later := now;
    start := now;
    c := NoRound();
    for attempt := 1 to Scanner.MAX_SCAN_ATTEMPTS + 1
      invariant later >= now && attempt <= Scanner.MAX_SCAN_ATTEMPTS
      invariant Sound(w, now, later) && AllTrue(w, first, now) ==> AllTrue(w, RowsOf(indexes), later)
    {
      var one;
      start := later;
      one, later, c := ScanRound(hash, lower, display, w, indexes, later);
      CalmWorldPart(w, now, start, later);
      SoundWithin(w, now, later, now, start);
      SoundWithin(w, now, later, start, later);
      if one.Err? {
        return Err(one.error), later, c, start;
      }
      CalmJudged(w, c, now, start, later);
      var changed := one.value.1;
      if changed == {} {
        SteadyNow(c);
        CurrentNow(w, c, start);
        SweptTimes(w, c, start);
        SoundWithin(w, now, later, start, c.end);
        return Ok(one.value.0), later, c, start;
      }
      NotSteady(c);
      if attempt == Scanner.MAX_SCAN_ATTEMPTS {
        return Err(Unstable(attempt, changed)), later, c, start;
      }
    }
    assert false;
  }
}
