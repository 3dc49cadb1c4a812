/** The sweep over all roots after the last of them was scanned, and what it is worth
    (crates/rc-agent/src/multiroot.rs, crates/rc-agent/src/scanner.rs). */
module CrossSweep {
  import opened Text
  import opened Sorting
  import opened Roots
  import opened Manifest
  import opened StatIndexes
  import opened Worktree
  import opened Passes
  import opened Scanner
  import MultiRoot

  /** The anchor's tree at every moment, the names a stat below the anchor leaves out, and each root
      with its own view of the part below it. */
  datatype World = World(h: History, skips: Str -> bool, roots: seq<RootMount>, sides: seq<Setting>)

  /** A root's files are those below its mount. */
  ghost predicate Sees(w: World, k: nat)
    requires k < |w.roots| == |w.sides|
  {
    forall t: nat, p {:trigger p in w.sides[k].h(t)} :: var at := Anchored(w.roots[k].mount, p);
      && (p in w.sides[k].h(t) <==> at in w.h(t))
      && (p in w.sides[k].h(t) ==> w.sides[k].h(t)[p] == w.h(t)[at])
  }

  ghost predicate OneTree(w: World) {
    && |w.sides| == |w.roots|
    && (forall k: nat :: k < |w.roots| ==> Sees(w, k))
    && (forall k: nat :: k < |w.roots| ==> Lists(w.sides[k]))
  }

  // ---- stats below the anchor ----

  ghost predicate NotedAt(w: World, paths: seq<Str>, at: seq<nat>, stats: Stats, p: Str, j: nat) {
    && j < |paths| == |at| && p in stats
    && paths[j] == p && !w.skips(p) && StampAt(w.h(at[j]), p) == Some(stats[p])
  }

  /** `stats` is what was seen of `paths` at the moments `at`; a path stated twice keeps one answer,
      and one that is skipped or missing has none. */
  ghost predicate Noted(w: World, paths: seq<Str>, at: seq<nat>, stats: Stats) {
    && |at| == |paths|
    && (forall p :: p in stats ==> exists j: nat :: NotedAt(w, paths, at, stats, p, j))
    && (forall j: nat :: j < |paths| && !w.skips(paths[j]) && paths[j] in w.h(at[j]) ==> paths[j] in stats)
  }

  // ---- one round over all roots ----

  /** Everything a round observed. Entries of `passes` and `relistings` are there for every root and
      mean something for the scanned ones. */
  datatype Round = Round(
    scans: seq<MultiRoot.Scan>, passes: seq<Pass>,
    seenPaths: seq<Str>, seenAt: seq<nat>, seen: Stats,
    middle: nat, relistings: seq<Listing>,
    afterPaths: seq<Str>, afterAt: seq<nat>, after: Stats, end: nat)

  ghost predicate Shaped(w: World, c: Round) {
    |w.roots| == |w.sides| == |c.scans| == |c.passes| == |c.relistings|
  }

  /** Root `k` was scanned and has an entry at this place below the anchor. */
  ghost predicate EntryPath(w: World, c: Round, k: nat, path: Str)
    requires Shaped(w, c)
  {
    && k < |w.roots| && MultiRoot.Scanned(w.roots, c.scans, k)
    && exists e :: e in c.scans[k].entries && Anchored(w.roots[k].mount, e.path) == path
  }

  /** Root `k` was scanned and the last enumeration names this place. */
  ghost predicate ListedPath(w: World, c: Round, k: nat, path: Str)
    requires Shaped(w, c)
  {
    && k < |w.roots| && MultiRoot.Scanned(w.roots, c.scans, k)
    && exists p :: p in c.relistings[k].paths && !w.sides[k].excluded(p) && Anchored(w.roots[k].mount, p) == path
  }

  ghost predicate SomeEntry(w: World, c: Round, path: Str)
    requires Shaped(w, c)
  {
    exists k: nat :: EntryPath(w, c, k, path)
  }

  ghost predicate SomeListed(w: World, c: Round, path: Str)
    requires Shaped(w, c)
  {
    exists k: nat :: ListedPath(w, c, k, path)
  }

  ghost predicate RootScanned(w: World, c: Round, k: nat, start: nat)
    requires Shaped(w, c) && k < |w.roots|
  {
    && Observed(w.sides[k], c.passes[k]) && Settled(c.passes[k])
    && start <= c.passes[k].start && c.passes[k].end <= c.middle
    && c.scans[k].entries == EntriesOf(w.sides[k], c.passes[k])
  }

  ghost predicate Relisted(w: World, c: Round, k: nat)
    requires Shaped(w, c) && k < |w.roots|
  {
    exists t: nat :: c.middle <= t <= c.end && w.sides[k].list(t) == Some(c.relistings[k])
  }

  /** Every root that is not skipped is scanned; then its entries are stated; at the end every scanned
      root is enumerated and stated once more. */
  ghost predicate Swept(w: World, c: Round, start: nat) {
    && Shaped(w, c)
    && (forall k: nat :: k < |w.roots| && MultiRoot.Scanned(w.roots, c.scans, k) ==>
        RootScanned(w, c, k, start) && Relisted(w, c, k))
    && (forall p :: p in c.seenPaths <==> SomeEntry(w, c, p))
    && (forall p :: p in c.afterPaths <==> SomeListed(w, c, p))
    && Noted(w, c.seenPaths, c.seenAt, c.seen) && Moments(c.seenAt, start, c.middle)
    && Noted(w, c.afterPaths, c.afterAt, c.after) && Moments(c.afterAt, c.middle, c.end)
    && start <= c.middle <= c.end
  }

  /** Both sweeps saw the same, so the round is accepted. */
  ghost predicate Steady(c: Round) {
    forall p :: Get(c.seen, p) == Get(c.after, p)
  }

  // ---- nothing is missing ----

  /** No file that the last enumeration names and that is there is missing from the entries. */
  lemma NothingMissing(w: World, c: Round, start: nat, j: nat)
    requires Swept(w, c, start) && Steady(c) && j < |c.afterPaths| == |c.afterAt|
    requires !w.skips(c.afterPaths[j]) && c.afterPaths[j] in w.h(c.afterAt[j])
    ensures SomeEntry(w, c, c.afterPaths[j])
  {
    hide SomeEntry, SomeListed, RootScanned, Relisted, StampAt;
    var p := c.afterPaths[j];
    assert Get(c.seen, p) == Get(c.after, p);
    var i: nat :| NotedAt(w, c.seenPaths, c.seenAt, c.seen, p, i);
    assert p in c.seenPaths;
  }

  // ---- one moment for all roots ----

  /** Between the sweeps nothing moved: what the first saw is there in the middle. */
  lemma SeenInTheMiddle(w: World, c: Round, start: nat, k: nat, p: Str)
    requires OneTree(w) && Swept(w, c, start) && Steady(c) && k < |w.roots|
    requires NoReturn(w.sides[k], start, c.end)
    requires !w.sides[k].excluded(p) && Anchored(w.roots[k].mount, p) in c.seen
    ensures var at := Anchored(w.roots[k].mount, p);
      exists t: nat, u: nat :: start <= t <= c.middle <= u <= c.end
        && StampAt(w.sides[k].h(t), p) == StampAt(w.sides[k].h(u), p) == Some(c.seen[at])
        && SameContent(w.sides[k].h(t), w.sides[k].h(c.middle), p)
  {
    var at := Anchored(w.roots[k].mount, p);
    assert Get(c.seen, at) == Get(c.after, at);
    var i: nat :| NotedAt(w, c.seenPaths, c.seenAt, c.seen, at, i);
    var j: nat :| NotedAt(w, c.afterPaths, c.afterAt, c.after, at, j);
    var t, u := c.seenAt[i], c.afterAt[j];
    assert start <= t <= c.middle <= u <= c.end;
    hide Swept, Steady;
    SideStamp(w, k, t, p);
    SideStamp(w, k, u, p);
    assert Between(w.sides[k].h, p, t, c.middle, u);
  }

  lemma SideStamp(w: World, k: nat, t: nat, p: Str)
    requires OneTree(w) && k < |w.roots|
    ensures StampAt(w.sides[k].h(t), p) == StampAt(w.h(t), Anchored(w.roots[k].mount, p))
  {
    assert Sees(w, k);
    assert p in w.sides[k].h(t) <==> Anchored(w.roots[k].mount, p) in w.h(t);
  }

  lemma SameContentSameStamp(a: Tree, b: Tree, p: Str)
    requires SameContent(a, b, p)
    ensures StampAt(a, p) == StampAt(b, p)
  {
  }

  /** A file the pass of its root saw is still as that pass saw it when all roots are done, exactly
      when the stat taken after the pass agrees with the pass's own. */
  lemma UnmovedExactly(w: World, c: Round, start: nat, k: nat, p: Str)
    requires OneTree(w) && Swept(w, c, start) && Steady(c)
    requires k < |w.roots| && MultiRoot.Scanned(w.roots, c.scans, k)
    requires NoReturn(w.sides[k], start, c.end)
    requires !w.sides[k].excluded(p) && p in c.passes[k].before
    requires Anchored(w.roots[k].mount, p) in c.seen
    ensures StampAt(w.sides[k].h(c.middle), p) == Some(c.passes[k].before[p]) <==>
      c.seen[Anchored(w.roots[k].mount, p)] == c.passes[k].before[p]
  {
    SeenInTheMiddle(w, c, start, k, p);
    hide Swept, Steady, NoReturn, OneTree;
    var t: nat, u: nat :| start <= t <= c.middle <= u <= c.end
      && StampAt(w.sides[k].h(t), p) == StampAt(w.sides[k].h(u), p) == Some(c.seen[Anchored(w.roots[k].mount, p)])
      && SameContent(w.sides[k].h(t), w.sides[k].h(c.middle), p);
    SameContentSameStamp(w.sides[k].h(t), w.sides[k].h(c.middle), p);
  }

  /** The file a pass saw in its first sweep. */
  lemma FirstSeen(s: Setting, q: Pass, i: nat)
    requires Observed(s, q) && i < |q.listing.paths| && q.listing.paths[i] in q.before
    ensures i < |q.firstAt| && q.start <= q.firstAt[i] <= q.middle <= q.end && !s.excluded(q.listing.paths[i])
    ensures StampAt(s.h(q.firstAt[i]), q.listing.paths[i]) == Some(q.before[q.listing.paths[i]])
  {
    assert Get(q.before, q.listing.paths[i]) ==
      if s.excluded(q.listing.paths[i]) then None else StampAt(s.h(q.firstAt[i]), q.listing.paths[i]);
  }

  lemma HeldUntil(s: Setting, p: Str, from: nat, to: nat, a: nat, u: nat, v: nat, t: nat)
    requires NoReturn(s, from, to) && !s.excluded(p) && from <= a <= u <= v <= t <= to
    requires StampAt(s.h(a), p).Some? && StampAt(s.h(a), p) == StampAt(s.h(t), p)
    ensures SameContent(s.h(u), s.h(v), p)
  {
    assert Between(s.h, p, a, u, t) && Between(s.h, p, a, v, t);
  }

  /** The pass of root `k` saw its file `i`, and the stat taken after the pass agrees. */
  ghost predicate Unmoved(w: World, c: Round, k: nat, i: nat)
    requires Shaped(w, c)
  {
    && k < |w.roots| && MultiRoot.Scanned(w.roots, c.scans, k)
    && i < |c.passes[k].listing.paths| == |c.passes[k].looks| && c.passes[k].listing.paths[i] in c.passes[k].before
    && Get(c.seen, Anchored(w.roots[k].mount, c.passes[k].listing.paths[i])) ==
      Get(c.passes[k].before, c.passes[k].listing.paths[i])
  }

  /** Its entry is what hashing the file when all roots are done would give, mode bits aside. */
  ghost predicate Current(w: World, c: Round, k: nat, i: nat)
    requires Shaped(w, c) && k < |w.roots| && i < |c.passes[k].listing.paths| == |c.passes[k].looks|
  {
    var s, q := w.sides[k], c.passes[k];
    Blank(EntryAt(s, q.listing, q.known, q.looks[i], q.listing.paths[i])) ==
    Blank(EntryFrom(s, q.listing, map[], s.h(c.middle), s.h(c.middle), q.listing.paths[i]))
  }

  /** So where nothing moved in between, the merged manifest shows every root as it was at one moment. */
  lemma EntryInTheMiddle(w: World, c: Round, start: nat, k: nat, i: nat)
    requires OneTree(w) && Swept(w, c, start) && Steady(c) && Unmoved(w, c, k, i)
    requires Reads(w.sides[k]) && NoReturn(w.sides[k], start, c.end)
    requires Truthful(w.sides[k], c.passes[k].known, c.passes[k].middle)
    ensures Current(w, c, k, i)
  {
    var s, q := w.sides[k], c.passes[k];
    var p := q.listing.paths[i];
    assert RootScanned(w, c, k, start);
    FirstSeen(s, q, i);
    SeenInTheMiddle(w, c, start, k, p);
    hide Swept, Steady, OneTree, Sees, Observed, Settled, MultiRoot.Scanned, Reads, Truthful, EntryFrom, EntryAt,
      Blank, SameContent, Relisted;
    var t: nat, u: nat :| start <= t <= c.middle <= u <= c.end
      && StampAt(s.h(t), p) == StampAt(s.h(u), p) == Some(c.seen[Anchored(w.roots[k].mount, p)])
      && SameContent(s.h(t), s.h(c.middle), p);
    HeldUntil(s, p, start, c.end, q.firstAt[i], q.middle, c.middle, u);
    HeldUntil(s, p, start, c.end, q.firstAt[i], c.middle, c.middle, u);
    hide StampAt, Get;
    NoReturnWithin(s, start, c.end, q.start, q.end);
    hide NoReturn;
    SweptEntry(s, q, i);
    EntryOfSameContent(s, q.listing, map[], s.h(q.middle), s.h(q.middle), s.h(c.middle), p);
  }

  // ---- which calm worktrees are accepted ----

  /** Root `k` was scanned, lists this place, and would take the file there. */
  ghost predicate VisiblePath(w: World, c: Round, k: nat, path: Str)
    requires Shaped(w, c)
  {
    && k < |w.roots| && MultiRoot.Scanned(w.roots, c.scans, k)
    && exists p :: p in c.relistings[k].paths && Anchored(w.roots[k].mount, p) == path
        && Visible(w.sides[k], w.sides[k].h(c.middle), p)
  }

  /** Something that is listed and is there, but that no scanned root takes: a directory, such as a
      submodule that is not checked out, or a name that is not safe. */
  ghost predicate Blocked(w: World, c: Round)
    requires Shaped(w, c)
  {
    exists path :: SomeListed(w, c, path) && !w.skips(path) && path in w.h(c.middle)
      && forall k: nat :: !VisiblePath(w, c, k, path)
  }

  /** Nobody edits any root while the round lasts. */
  ghost predicate CalmRound(w: World, c: Round, start: nat)
    requires Shaped(w, c)
  {
    forall k: nat :: k < |w.roots| && MultiRoot.Scanned(w.roots, c.scans, k) ==>
      Calm(w.sides[k], c.relistings[k], start, c.end)
  }

  lemma CalmStamp(w: World, listing: Listing, k: nat, from: nat, to: nat, t: nat, u: nat, p: Str)
    requires OneTree(w) && k < |w.roots| && Calm(w.sides[k], listing, from, to) && !w.sides[k].excluded(p)
    requires from <= t <= to && from <= u <= to
    ensures StampAt(w.h(t), Anchored(w.roots[k].mount, p)) == StampAt(w.h(u), Anchored(w.roots[k].mount, p))
    ensures SameContent(w.sides[k].h(t), w.sides[k].h(u), p)
  {
    SideStamp(w, k, t, p);
    SideStamp(w, k, u, p);
    hide OneTree;
    var s := w.sides[k];
    assert SameContent(s.h(from), s.h(t), p) && SameContent(s.h(from), s.h(u), p);
  }

  lemma {:induction false} CollectedVisible(s: Setting, listing: Listing, rows: Rows, paths: seq<Str>,
                                            looks: seq<Look>, e: FileEntry)
    requires |looks| == |paths| && e in Collected(s, listing, rows, paths, looks)
    ensures exists i :: 0 <= i < |paths| && paths[i] == e.path && Visible(s, s.h(looks[i].meta), e.path)
  {
    hide Visible;
    var n := |paths| - 1;
    if e in Collected(s, listing, rows, paths[..n], looks[..n]) {
      CollectedVisible(s, listing, rows, paths[..n], looks[..n], e);
      var i :| 0 <= i < n && paths[..n][i] == e.path && Visible(s, s.h(looks[..n][i].meta), e.path);
      assert paths[i] == e.path && Visible(s, s.h(looks[i].meta), e.path);
    } else {
      assert e in Listed(EntryAt(s, listing, rows, looks[n], paths[n]));
    }
  }

  lemma VisibleAgain(s: Setting, a: Tree, b: Tree, p: Str)
    requires Visible(s, a, p) && SameContent(a, b, p)
    ensures Visible(s, b, p)
  {
    hide IsSafeRelativePath;
  }

  lemma CalmListing(s: Setting, q: Pass, listing: Listing, start: nat, end: nat)
    requires Observed(s, q) && Calm(s, listing, start, end) && start <= q.start && q.end <= end
    ensures q.listing == listing && |q.looks| == |listing.paths|
    ensures forall i :: 0 <= i < |q.looks| ==> start <= q.looks[i].meta <= end
  {
    assert s.list(q.start) == Some(listing);
  }

  /** In a calm round a scanned root has an entry exactly for what it would take. */
  lemma CalmEntries(w: World, c: Round, start: nat, k: nat, path: Str)
    requires OneTree(w) && Swept(w, c, start) && CalmRound(w, c, start)
    requires k < |w.roots| && MultiRoot.Scanned(w.roots, c.scans, k)
    ensures EntryPath(w, c, k, path) <==> VisiblePath(w, c, k, path)
  {
    var s, q, listing := w.sides[k], c.passes[k], c.relistings[k];
    assert RootScanned(w, c, k, start) && Calm(s, listing, start, c.end) && start <= c.middle <= c.end;
    hide Swept, CalmRound, Visible, SameContent, StampAt, Sees, OneTree, Settled;
    CalmListing(s, q, listing, start, c.end);
    if EntryPath(w, c, k, path) {
      var e :| e in c.scans[k].entries && Anchored(w.roots[k].mount, e.path) == path;
      CollectedVisible(s, q.listing, q.known, q.listing.paths, q.looks, e);
      var i :| 0 <= i < |q.listing.paths| && q.listing.paths[i] == e.path && Visible(s, s.h(q.looks[i].meta), e.path);
      VisibleMoves(w, listing, k, start, c.end, q.looks[i].meta, c.middle, e.path);
    }
    if VisiblePath(w, c, k, path) {
      var p :| p in listing.paths && Anchored(w.roots[k].mount, p) == path && Visible(s, s.h(c.middle), p);
      var i :| 0 <= i < |listing.paths| && listing.paths[i] == p;
      VisibleMoves(w, listing, k, start, c.end, c.middle, q.looks[i].meta, p);
      EntryOfVisible(s, q.listing, q.known, q.looks[i], p);
      CollectedHas(s, q.listing, q.known, q.listing.paths, q.looks, i);
    }
  }

  lemma EntryOfVisible(s: Setting, listing: Listing, rows: Rows, look: Look, p: Str)
    requires Visible(s, s.h(look.meta), p)
    ensures var e := EntryAt(s, listing, rows, look, p); e.Some? && e.value.path == p
  {
  }

  lemma VisibleMoves(w: World, listing: Listing, k: nat, from: nat, to: nat, t: nat, u: nat, p: Str)
    requires OneTree(w) && k < |w.roots| && Calm(w.sides[k], listing, from, to)
    requires from <= t <= to && from <= u <= to && Visible(w.sides[k], w.sides[k].h(t), p)
    ensures Visible(w.sides[k], w.sides[k].h(u), p)
  {
    CalmStamp(w, listing, k, from, to, t, u, p);
    hide OneTree, Calm;
    VisibleAgain(w.sides[k], w.sides[k].h(t), w.sides[k].h(u), p);
  }

  /** In a calm round a listed place looks the same all the time. */
  lemma CalmPlace(w: World, c: Round, start: nat, path: Str, t: nat, u: nat)
    requires OneTree(w) && Swept(w, c, start) && CalmRound(w, c, start) && SomeListed(w, c, path)
    requires start <= t <= c.end && start <= u <= c.end
    ensures StampAt(w.h(t), path) == StampAt(w.h(u), path)
  {
    var k: nat :| ListedPath(w, c, k, path);
    var p :| p in c.relistings[k].paths && !w.sides[k].excluded(p) && Anchored(w.roots[k].mount, p) == path;
    assert Calm(w.sides[k], c.relistings[k], start, c.end);
    hide OneTree, Swept, CalmRound, Calm;
    CalmStamp(w, c.relistings[k], k, start, c.end, t, u, p);
  }

  lemma CalmEntryIsListed(w: World, c: Round, start: nat, path: Str)
    requires OneTree(w) && Swept(w, c, start) && CalmRound(w, c, start) && SomeEntry(w, c, path)
    ensures SomeListed(w, c, path)
  {
    var k: nat :| EntryPath(w, c, k, path);
    hide OneTree, Swept, CalmRound;
    CalmEntries(w, c, start, k, path);
    var p :| p in c.relistings[k].paths && Anchored(w.roots[k].mount, p) == path
        && Visible(w.sides[k], w.sides[k].h(c.middle), p);
    assert ListedPath(w, c, k, path);
  }

  lemma SeenIsEntry(w: World, c: Round, start: nat, path: Str)
    requires Swept(w, c, start) && path in c.seen
    ensures SomeEntry(w, c, path)
  {
    hide SomeEntry, SomeListed, RootScanned, Relisted, StampAt;
    var j: nat :| NotedAt(w, c.seenPaths, c.seenAt, c.seen, path, j);
    assert path in c.seenPaths;
  }

  /** When a place is in the first sweep. */
  lemma SeenExactly(w: World, c: Round, start: nat, path: Str)
    requires OneTree(w) && Swept(w, c, start) && CalmRound(w, c, start)
    ensures path in c.seen <==> SomeEntry(w, c, path) && !w.skips(path) && path in w.h(c.middle)
    ensures path in c.seen ==> StampAt(w.h(c.middle), path) == Some(c.seen[path])
  {
    if path in c.seen { SeenIsEntry(w, c, start, path); }
    if SomeEntry(w, c, path) {
      CalmEntryIsListed(w, c, start, path);
      var i :| 0 <= i < |c.seenPaths| && c.seenPaths[i] == path;
      CalmPlace(w, c, start, path, c.seenAt[i], c.middle);
      hide SomeEntry, CalmRound, OneTree, SomeListed, RootScanned, Relisted;
      if path in c.seen {
        var j: nat :| NotedAt(w, c.seenPaths, c.seenAt, c.seen, path, j);
        CalmPlace(w, c, start, path, c.seenAt[j], c.middle);
      }
    }
  }

  /** When a place is in the second sweep. */
  lemma AfterExactly(w: World, c: Round, start: nat, path: Str)
    requires OneTree(w) && Swept(w, c, start) && CalmRound(w, c, start)
    ensures path in c.after <==> SomeListed(w, c, path) && !w.skips(path) && path in w.h(c.middle)
    ensures path in c.after ==> StampAt(w.h(c.middle), path) == Some(c.after[path])
  {
    hide SomeListed, CalmRound, OneTree, RootScanned, Relisted;
    if SomeListed(w, c, path) {
      var i :| 0 <= i < |c.afterPaths| && c.afterPaths[i] == path;
      CalmPlace(w, c, start, path, c.afterAt[i], c.middle);
    }
    if path in c.after {
      var j: nat :| NotedAt(w, c.afterPaths, c.afterAt, c.after, path, j);
      assert path in c.afterPaths;
      CalmPlace(w, c, start, path, c.afterAt[j], c.middle);
    }
  }

  /** A calm round is accepted exactly when nothing listed is there that no root takes. With such a
      thing every attempt fails, however quiet the worktree is. */
  lemma CalmExactly(w: World, c: Round, start: nat)
    requires OneTree(w) && Swept(w, c, start) && CalmRound(w, c, start)
    ensures Steady(c) <==> !Blocked(w, c)
  {
    forall path
      ensures Get(c.seen, path) == Get(c.after, path) <==>
        !(SomeListed(w, c, path) && !w.skips(path) && path in w.h(c.middle) && !SomeEntry(w, c, path))
    {
      SeenExactly(w, c, start, path);
      AfterExactly(w, c, start, path);
      if SomeEntry(w, c, path) { CalmEntryIsListed(w, c, start, path); }
      hide *;
      GetSame(c, path);
    }
    forall path ensures SomeEntry(w, c, path) <==> exists k: nat :: VisiblePath(w, c, k, path) {
      EntriesVisible(w, c, start, path);
    }
    hide Swept, CalmRound, OneTree, SomeEntry, SomeListed, VisiblePath, Get;
  }

  lemma GetSame(c: Round, path: Str)
    ensures Get(c.seen, path) == if path in c.seen then Some(c.seen[path]) else None
    ensures Get(c.after, path) == if path in c.after then Some(c.after[path]) else None
  {
  }

  lemma EntriesVisible(w: World, c: Round, start: nat, path: Str)
    requires OneTree(w) && Swept(w, c, start) && CalmRound(w, c, start)
    ensures SomeEntry(w, c, path) <==> exists k: nat :: VisiblePath(w, c, k, path)
  {
    if SomeEntry(w, c, path) {
      var k: nat :| EntryPath(w, c, k, path);
      CalmEntries(w, c, start, k, path);
    }
    if k: nat :| VisiblePath(w, c, k, path) {
      CalmEntries(w, c, start, k, path);
    }
  }

  /** With one root, that is its whole anchor, it is a directory or an unsafe name that blocks. */
  lemma SingleRootExactly(w: World, c: Round)
    requires OneTree(w) && Shaped(w, c) && |w.roots| == 1 && w.roots[0].mount == [] &&
      MultiRoot.Scanned(w.roots, c.scans, 0)
    ensures var s := w.sides[0]; var tree := s.h(c.middle);
      Blocked(w, c) <==> exists p ::
        && p in c.relistings[0].paths && !s.excluded(p) && !w.skips(p) && p in tree
        && (tree[p].Folder? || !IsSafeRelativePath(p))
  {
    var s := w.sides[0];
    var tree := s.h(c.middle);
    hide IsSafeRelativePath, MultiRoot.Scanned;
    assert Sees(w, 0);
    forall p ensures p in tree <==> p in w.h(c.middle) {
      assert Anchored([], p) == p;
    }
    forall p ensures SomeListed(w, c, p) <==> p in c.relistings[0].paths && !s.excluded(p) {
      assert Anchored([], p) == p;
      if p in c.relistings[0].paths && !s.excluded(p) { assert ListedPath(w, c, 0, p); }
    }
    forall p ensures (forall k: nat :: !VisiblePath(w, c, k, p)) <==>
      !(p in c.relistings[0].paths && Visible(s, tree, p)) {
      assert Anchored([], p) == p;
      if p in c.relistings[0].paths && Visible(s, tree, p) { assert VisiblePath(w, c, 0, p); }
    }
    hide SomeListed, VisiblePath, OneTree, Sees;
  }

  /** A worktree that lists one path, which is a directory, and never changes. */
  function FolderWorld(path: Str, hash: Str -> Str): World {
    var h: History := (t: nat) => map[path := Folder(0, 0)];
    World(h, (p: Str) => false, [RootMount([], [], true, false)], [OneFile(path, h, hash)])
  }

  lemma FolderWorldIsCalm(path: Str, hash: Str -> Str, c: Round, start: nat)
    requires Swept(FolderWorld(path, hash), c, start)
    ensures var w := FolderWorld(path, hash);
      OneTree(w) && CalmRound(w, c, start) && MultiRoot.Scanned(w.roots, c.scans, 0)
    ensures c.relistings[0].paths == [path]
  {
    var w := FolderWorld(path, hash);
    assert MultiRoot.Scanned(w.roots, c.scans, 0);
    assert Relisted(w, c, 0);
    hide SomeEntry, SomeListed, Noted, Moments, Observed, Settled, EntriesOf;
  }

  /** No round over it is ever accepted. */
  lemma DirectoryIsNeverAccepted(path: Str, hash: Str -> Str, c: Round, start: nat)
    requires Swept(FolderWorld(path, hash), c, start)
    ensures !Steady(c)
  {
    var w := FolderWorld(path, hash);
    FolderWorldIsCalm(path, hash, c, start);
    assert path in c.relistings[0].paths && path in w.sides[0].h(c.middle) && w.sides[0].h(c.middle)[path].Folder?;
    hide Swept, OneTree, CalmRound, Steady, MultiRoot.Scanned, Blocked, IsSafeRelativePath;
    SingleRootExactly(w, c);
    CalmExactly(w, c, start);
  }

  // ---- the edit nobody sees ----

  /** A file edited once, after its root was scanned. */
  function EditedLate(path: Str, x: Str, y: Str): History {
    (t: nat) => map[path := if t < 5 then Regular(x, 0, false) else Regular(y, 1, false)]
  }

  function LateWorld(path: Str, x: Str, y: Str, hash: Str -> Str): World {
    var h := EditedLate(path, x, y);
    World(h, (p: Str) => false, [RootMount([], [], true, false)], [OneFile(path, h, hash)])
  }

  function LateRound(path: Str, x: Str, y: Str, hash: Str -> Str): Round {
    var listing := Listing([path], {}, {}, [], false);
    var first, second := map[path := Stamp(|x|, 0)], map[path := Stamp(|y|, 1)];
    var q := Pass(0, listing, [0], first, 1, map[], [Look(2, 2)], 3, listing, [3], first, 3);
    var scan := MultiRoot.Scan(EntriesOf(OneFile(path, EditedLate(path, x, y), hash), q), {});
    Round([scan], [q], [path], [6], second, 6, [listing], [path], [7], second, 7)
  }

  lemma OfOnePath(s: Setting, listing: Listing, rows: Rows, path: Str, look: Look, tree: Tree)
    ensures Collected(s, listing, rows, [path], [look]) == Listed(EntryAt(s, listing, rows, look, path))
    ensures Full(s, listing, [path], tree) == Listed(EntryFrom(s, listing, map[], tree, tree, path))
  {
    hide EntryAt, EntryFrom, Listed;
    assert [path][..0] == [] && [look][..0] == [];
  }

  lemma LateEntry(path: Str, x: Str, y: Str, hash: Str -> Str)
    requires IsSafeRelativePath(path)
    ensures var s, q := OneFile(path, EditedLate(path, x, y), hash), LateRound(path, x, y, hash).passes[0];
      && Observed(s, q) && Settled(q)
      && EntriesOf(s, q) == [FileEntry(path, |x|, hash(x), Worktree.ENTRY_FILE, false, false, [])]
      && EntryFrom(s, q.listing, map[], s.h(6), s.h(6), path) ==
        Some(FileEntry(path, |y|, hash(y), Worktree.ENTRY_FILE, false, false, []))
  {
    hide IsSafeRelativePath;
    var s, q := OneFile(path, EditedLate(path, x, y), hash), LateRound(path, x, y, hash).passes[0];
    OfOnePath(s, q.listing, map[], path, Look(2, 2), s.h(6));
    hide Collected;
    assert path in s.h(2) && s.h(2)[path] == Regular(x, 0, false);
    assert path in s.h(6) && s.h(6)[path] == Regular(y, 1, false);
  }

  lemma LateIsScanned(path: Str, x: Str, y: Str, hash: Str -> Str)
    ensures var w, c := LateWorld(path, x, y, hash), LateRound(path, x, y, hash);
      |w.roots| == |c.scans| == 1 && MultiRoot.Scanned(w.roots, c.scans, 0)
  {
  }

  lemma LateIsNoted(path: Str, x: Str, y: Str, hash: Str -> Str)
    ensures var w, c := LateWorld(path, x, y, hash), LateRound(path, x, y, hash);
      && Noted(w, c.seenPaths, c.seenAt, c.seen) && Noted(w, c.afterPaths, c.afterAt, c.after)
      && Moments(c.seenAt, 0, c.middle) && Moments(c.afterAt, c.middle, c.end)
  {
    hide EntriesOf;
    var w, c := LateWorld(path, x, y, hash), LateRound(path, x, y, hash);
    assert NotedAt(w, c.seenPaths, c.seenAt, c.seen, path, 0) && NotedAt(w, c.afterPaths, c.afterAt, c.after, path, 0);
  }

  lemma LateIsSwept(path: Str, x: Str, y: Str, hash: Str -> Str)
    requires IsSafeRelativePath(path)
    ensures Swept(LateWorld(path, x, y, hash), LateRound(path, x, y, hash), 0)
  {
    hide IsSafeRelativePath, Observed, Settled, EntriesOf, EntryFrom, EntryAt, MultiRoot.Scanned, Noted, Moments,
      Collected;
    var w, c := LateWorld(path, x, y, hash), LateRound(path, x, y, hash);
    LateEntry(path, x, y, hash);
    LateIsScanned(path, x, y, hash);
    LateIsNoted(path, x, y, hash);
    var e := c.scans[0].entries[0];
    assert e in c.scans[0].entries && e.path == path && path in c.relistings[0].paths;
    assert EntryPath(w, c, 0, path) && ListedPath(w, c, 0, path);
    assert w.sides[0].list(6) == Some(c.relistings[0]);
  }

  lemma LateNeverReturns(path: Str, x: Str, y: Str, hash: Str -> Str)
    ensures NeverReturns(OneFile(path, EditedLate(path, x, y), hash))
    ensures OneTree(LateWorld(path, x, y, hash))
  {
  }

  /** An edit between the second sweep of a pass and the stat that follows it is seen by neither: the
      round is accepted, no stamp ever returns, and the entry is of the older content. */
  lemma LateEditAccepted(path: Str, x: Str, y: Str, hash: Str -> Str)
    requires IsSafeRelativePath(path) && hash(x) != hash(y)
    ensures var w, c := LateWorld(path, x, y, hash), LateRound(path, x, y, hash);
      && OneTree(w) && NeverReturns(w.sides[0]) && Reads(w.sides[0]) && Swept(w, c, 0) && Steady(c)
      && Stripped(EntriesOf(w.sides[0], c.passes[0])) !=
        Stripped(Full(w.sides[0], c.passes[0].listing, [path], w.sides[0].h(c.middle)))
  {
    LateIsSwept(path, x, y, hash);
    LateNeverReturns(path, x, y, hash);
    LateEntry(path, x, y, hash);
    var w, c := LateWorld(path, x, y, hash), LateRound(path, x, y, hash);
    hide IsSafeRelativePath, Observed, Settled, EntriesOf, EntryFrom, OneTree, NeverReturns, Swept;
    OfOnePath(w.sides[0], c.passes[0].listing, map[], path, Look(2, 2), w.sides[0].h(6));
    var full := Full(w.sides[0], c.passes[0].listing, [path], w.sides[0].h(6));
    assert full == [FileEntry(path, |y|, hash(y), Worktree.ENTRY_FILE, false, false, [])];
    assert Stripped(full)[0].hash == hash(y);
    assert Stripped(EntriesOf(w.sides[0], c.passes[0]))[0].hash == hash(x);
  }
}
