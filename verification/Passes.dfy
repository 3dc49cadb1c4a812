/** What one pass of a scan observed, and what its entries are worth
    (crates/rc-agent/src/scanner.rs). */
module Passes {
  import opened Text
  import opened Sorting
  import opened Manifest
  import opened StatIndexes
  import opened Worktree

  type Stats = map<Str, Stamp>

  function Get(stats: Stats, path: Str): Option<Stamp> {
    if path in stats then Some(stats[path]) else None
  }

  /** `stats` holds what was seen of each path that is not excluded, at the moments `at`. */
  ghost predicate Stated(s: Setting, paths: seq<Str>, at: seq<nat>, stats: Stats) {
    && |at| == |paths|
    && (forall k :: 0 <= k < |paths| ==>
        Get(stats, paths[k]) == if s.excluded(paths[k]) then None else StampAt(s.h(at[k]), paths[k]))
    && (forall p :: p in stats ==> p in paths)
  }

  ghost predicate Moments(at: seq<nat>, from: nat, to: nat) {
    forall k :: 0 <= k < |at| ==> from <= at[k] <= to
  }

  ghost predicate Within(looks: seq<Look>, from: nat, to: nat) {
    forall k :: 0 <= k < |looks| ==> from <= looks[k].meta <= looks[k].data <= to
  }

  /** Everything one pass observed, in order; `known` is the index as the hashing found it. */
  datatype Pass = Pass(
    start: nat, listing: Listing, firstAt: seq<nat>, before: Stats,
    middle: nat, known: Rows, looks: seq<Look>,
    again: nat, relisting: Listing, secondAt: seq<nat>, after: Stats, end: nat)

  ghost predicate Observed(s: Setting, q: Pass) {
    && s.list(q.start) == Some(q.listing) && Stated(s, q.listing.paths, q.firstAt, q.before)
    && Moments(q.firstAt, q.start, q.middle)
    && |q.looks| == |q.listing.paths| && Within(q.looks, q.middle, q.again)
    && NoneUnread(s, q.known, q.listing.paths, q.looks)
    && s.list(q.again) == Some(q.relisting) && Stated(s, q.relisting.paths, q.secondAt, q.after)
    && Moments(q.secondAt, q.again, q.end)
    && q.start <= q.middle <= q.again <= q.end
  }

  /** Both sweeps saw the same, so the pass is accepted. */
  ghost predicate Settled(q: Pass) {
    forall p :: Get(q.before, p) == Get(q.after, p)
  }

  function EntriesOf(s: Setting, q: Pass): seq<FileEntry>
    requires |q.looks| == |q.listing.paths|
  {
    Collected(s, q.listing, q.known, q.listing.paths, q.looks)
  }

  // ---- one path ----

  /** A path both sweeps saw was the same from the first sweep to the second. */
  lemma SweptPathHeld(s: Setting, q: Pass, k: nat)
    requires Observed(s, q) && Settled(q) && NoReturn(s, q.start, q.end)
    requires k < |q.listing.paths| && q.listing.paths[k] in q.before
    ensures var p := q.listing.paths[k]; var look := q.looks[k];
      && SameContent(s.h(look.meta), s.h(q.middle), p) && SameContent(s.h(look.data), s.h(q.middle), p)
      && p in s.h(q.middle) && !s.excluded(p)
  {
    var p := q.listing.paths[k];
    var from := q.firstAt[k];
    assert Get(q.before, p) == StampAt(s.h(from), p);
    assert Get(q.before, p) == Get(q.after, p);
    var j :| 0 <= j < |q.relisting.paths| && q.relisting.paths[j] == p;
    var to := q.secondAt[j];
    assert Get(q.after, p) == StampAt(s.h(to), p);
    hide Stated, Settled;
    var look := q.looks[k];
    HeldBetween(s, q.start, q.end, p, from, look.meta, to);
    HeldBetween(s, q.start, q.end, p, from, look.data, to);
    HeldBetween(s, q.start, q.end, p, from, q.middle, to);
  }

  lemma HeldBetween(s: Setting, start: nat, end: nat, p: Str, from: nat, at: nat, to: nat)
    requires NoReturn(s, start, end) && start <= from <= at <= to <= end && !s.excluded(p)
    requires StampAt(s.h(from), p).Some? && StampAt(s.h(from), p) == StampAt(s.h(to), p)
    ensures SameContent(s.h(from), s.h(at), p)
  {
    assert Between(s.h, p, from, at, to);
  }

  /** An entry depends on the bare node and the content that was read. */
  lemma EntryOfSameContent(s: Setting, listing: Listing, rows: Rows, meta: Tree, data: Tree, at: Tree, p: Str)
    requires Reads(s) && SameContent(meta, at, p) && SameContent(data, at, p)
    ensures Blank(EntryFrom(s, listing, rows, meta, data, p)) == Blank(EntryFrom(s, listing, rows, at, at, p))
  {
    hide IsSafeRelativePath;
    if p in at && at[p].Regular? {
      assert s.read(data, p) == Some(data[p].content) && s.read(at, p) == Some(at[p].content);
    }
  }

  lemma SweptEntry(s: Setting, q: Pass, k: nat)
    requires Reads(s) && Truthful(s, q.known, q.middle)
    requires Observed(s, q) && Settled(q) && NoReturn(s, q.start, q.end)
    requires k < |q.listing.paths| && q.listing.paths[k] in q.before
    ensures Blank(EntryAt(s, q.listing, q.known, q.looks[k], q.listing.paths[k])) ==
      Blank(EntryFrom(s, q.listing, map[], s.h(q.middle), s.h(q.middle), q.listing.paths[k]))
  {
    SweptPathHeld(s, q, k);
    hide Observed, Settled, NoReturn, Reads, Truthful, SameContent, EntryFrom, Blank;
    var p, look := q.listing.paths[k], q.looks[k];
    EntryOfSameContent(s, q.listing, q.known, s.h(look.meta), s.h(look.data), s.h(q.middle), p);
    HitIsCurrent(s, q.listing, q.known, q.middle, q.middle, p);
  }

  // ---- a whole pass ----

  /** What the sweeps saw, as it was at the one moment between the first sweep and the hashing. */
  function SweptTree(s: Setting, q: Pass): Tree {
    map p | p in s.h(q.middle) && p in q.before :: s.h(q.middle)[p]
  }

  /** A listed path neither sweep saw, present when it was looked at: a tracked file that had been
      deleted, put back and removed again within the pass. */
  ghost predicate Phantom(s: Setting, q: Pass, k: nat)
    requires |q.looks| == |q.listing.paths| && k < |q.looks|
  {
    q.listing.paths[k] !in q.before && Visible(s, s.h(q.looks[k].meta), q.listing.paths[k])
  }

  ghost predicate HasPhantom(s: Setting, q: Pass)
    requires |q.looks| == |q.listing.paths|
  {
    exists k: nat :: k < |q.looks| && Phantom(s, q, k)
  }

  lemma {:induction false} CollectedIsFull(s: Setting, listing: Listing, rows: Rows, paths: seq<Str>,
                                           looks: seq<Look>, tree: Tree)
    requires |looks| == |paths|
    requires forall k :: 0 <= k < |paths| ==>
      Blank(EntryAt(s, listing, rows, looks[k], paths[k])) == Blank(EntryFrom(s, listing, map[], tree, tree, paths[k]))
    ensures Stripped(Collected(s, listing, rows, paths, looks)) == Stripped(Full(s, listing, paths, tree))
  {
    hide EntryFrom, EntryAt, Blank, Listed;
    if paths != [] {
      var n := |paths| - 1;
      CollectedIsFull(s, listing, rows, paths[..n], looks[..n], tree);
      StrippedConcat(Collected(s, listing, rows, paths[..n], looks[..n]),
        EntryAt(s, listing, rows, looks[n], paths[n]));
      StrippedConcat(Full(s, listing, paths[..n], tree), EntryFrom(s, listing, map[], tree, tree, paths[n]));
    }
  }

  lemma {:induction false} CollectedHas(s: Setting, listing: Listing, rows: Rows, paths: seq<Str>, looks: seq<Look>,
                                        k: nat)
    requires |looks| == |paths| && k < |paths|
    ensures var e := EntryAt(s, listing, rows, looks[k], paths[k]);
      e.Some? ==> e.value in Collected(s, listing, rows, paths, looks)
  {
    hide EntryFrom, EntryAt;
    if k < |paths| - 1 { CollectedHas(s, listing, rows, paths[..|paths| - 1], looks[..|paths| - 1], k); }
  }

  lemma {:induction false} FullLists(s: Setting, listing: Listing, paths: seq<Str>, tree: Tree)
    ensures forall e :: e in Full(s, listing, paths, tree) ==> e.path in tree
  {
    if paths != [] { FullLists(s, listing, paths[..|paths| - 1], tree); }
  }

  lemma StrippedPaths(a: seq<FileEntry>, b: seq<FileEntry>, e: FileEntry)
    requires Stripped(a) == Stripped(b) && e in a
    ensures exists f :: f in b && f.path == e.path
  {
    var k :| 0 <= k < |a| && a[k] == e;
    assert Stripped(a)[k].path == e.path && Stripped(b)[k].path == b[k].path;
    assert |Stripped(a)| == |a| && |Stripped(b)| == |b|;
    assert b[k] in b;
  }

  lemma PhantomIsListed(s: Setting, q: Pass, k: nat)
    requires |q.looks| == |q.listing.paths| && k < |q.looks| && Phantom(s, q, k)
    ensures Stripped(EntriesOf(s, q)) != Stripped(Full(s, q.listing, q.listing.paths, SweptTree(s, q)))
  {
    var e := EntryAt(s, q.listing, q.known, q.looks[k], q.listing.paths[k]);
    CollectedHas(s, q.listing, q.known, q.listing.paths, q.looks, k);
    FullLists(s, q.listing, q.listing.paths, SweptTree(s, q));
    if Stripped(EntriesOf(s, q)) == Stripped(Full(s, q.listing, q.listing.paths, SweptTree(s, q))) {
      StrippedPaths(EntriesOf(s, q), Full(s, q.listing, q.listing.paths, SweptTree(s, q)), e.value);
    }
  }

  lemma PathOfPass(s: Setting, q: Pass, k: nat)
    requires Reads(s) && Truthful(s, q.known, q.middle)
    requires Observed(s, q) && Settled(q) && NoReturn(s, q.start, q.end)
    requires k < |q.listing.paths| && !Phantom(s, q, k)
    ensures Blank(EntryAt(s, q.listing, q.known, q.looks[k], q.listing.paths[k])) ==
      Blank(EntryFrom(s, q.listing, map[], SweptTree(s, q), SweptTree(s, q), q.listing.paths[k]))
  {
    var p := q.listing.paths[k];
    if p in q.before {
      SweptPathHeld(s, q, k);
      SweptEntry(s, q, k);
      hide Observed, Settled, NoReturn, Truthful;
      assert SameContent(s.h(q.middle), SweptTree(s, q), p);
      EntryOfSameContent(s, q.listing, map[], s.h(q.middle), s.h(q.middle), SweptTree(s, q), p);
    }
  }

  /** An accepted pass is a snapshot exactly when it has no phantom: its entries are, up to mode
      bits, what the sweeps saw, every file of it hashed at one moment. */
  lemma AcceptedPassExactly(s: Setting, q: Pass)
    requires Reads(s) && Truthful(s, q.known, q.middle)
    requires Observed(s, q) && Settled(q) && NoReturn(s, q.start, q.end)
    ensures Stripped(EntriesOf(s, q)) == Stripped(Full(s, q.listing, q.listing.paths, SweptTree(s, q))) <==>
      !HasPhantom(s, q)
  {
    if HasPhantom(s, q) {
      var k: nat :| k < |q.looks| && Phantom(s, q, k);
      hide *;
      PhantomIsListed(s, q, k);
    } else {
      forall k | 0 <= k < |q.listing.paths|
        ensures Blank(EntryAt(s, q.listing, q.known, q.looks[k], q.listing.paths[k])) ==
          Blank(EntryFrom(s, q.listing, map[], SweptTree(s, q), SweptTree(s, q), q.listing.paths[k]))
      {
        assert !Phantom(s, q, k);
        hide Phantom, Reads, Truthful, Settled, NoReturn, Observed;
        PathOfPass(s, q, k);
      }
      hide Phantom, Reads, Truthful, Settled, NoReturn, EntryAt, EntryFrom, SweptTree;
      CollectedIsFull(s, q.listing, q.known, q.listing.paths, q.looks, SweptTree(s, q));
    }
  }

  /** A listed path missing at the sweeps is missing while the files are hashed. */
  ghost predicate AbsentStays(s: Setting, q: Pass) {
    forall p, t: nat {:trigger p in s.h(t)} ::
      p in q.listing.paths && !s.excluded(p) && p !in q.before && q.middle <= t <= q.again ==> p !in s.h(t)
  }

  lemma {:induction false} FullOfSwept(s: Setting, q: Pass, paths: seq<Str>)
    requires AbsentStays(s, q) && q.middle <= q.again && forall p :: p in paths ==> p in q.listing.paths
    requires Reads(s)
    ensures Full(s, q.listing, paths, SweptTree(s, q)) == Full(s, q.listing, paths, s.h(q.middle))
  {
    if paths != [] {
      var n := |paths| - 1;
      FullOfSwept(s, q, paths[..n]);
      var p := paths[n];
      assert p in paths;
      var a, b := SweptTree(s, q), s.h(q.middle);
      hide AbsentStays, IsSafeRelativePath;
      assert !s.excluded(p) && p !in q.before ==> p !in b by { AbsentNow(s, q, p); }
      if p in a && a[p].Regular? {
        assert s.read(a, p) == Some(a[p].content) && s.read(b, p) == Some(b[p].content);
      }
      assert EntryFrom(s, q.listing, map[], a, a, p) == EntryFrom(s, q.listing, map[], b, b, p);
    }
  }

  lemma AbsentNow(s: Setting, q: Pass, p: Str)
    requires AbsentStays(s, q) && q.middle <= q.again && p in q.listing.paths
    ensures !s.excluded(p) && p !in q.before ==> p !in s.h(q.middle)
  {
  }

  /** So when nothing listed appears and vanishes within the pass, the entries are those of hashing
      every listed file of the tree as it was at that moment. */
  lemma AcceptedPassIsWhole(s: Setting, q: Pass)
    requires Reads(s) && Truthful(s, q.known, q.middle)
    requires Observed(s, q) && Settled(q) && NoReturn(s, q.start, q.end) && AbsentStays(s, q)
    ensures Stripped(EntriesOf(s, q)) == Stripped(Full(s, q.listing, q.listing.paths, s.h(q.middle)))
  {
    forall k: nat | k < |q.looks| ensures !Phantom(s, q, k) {
      assert q.listing.paths[k] in q.listing.paths && q.middle <= q.looks[k].meta <= q.again;
    }
    AcceptedPassExactly(s, q);
    FullOfSwept(s, q, q.listing.paths);
  }

  /** The same of a pass nobody edits in, whether or not stamps come back at other times. */
  lemma QuietPassIsWhole(s: Setting, q: Pass)
    requires Reads(s) && Truthful(s, q.known, q.middle)
    requires Observed(s, q) && Settled(q) && Quiet(s, q.start, q.end)
    ensures Stripped(EntriesOf(s, q)) == Stripped(Full(s, q.listing, q.listing.paths, s.h(q.middle)))
  {
    QuietNeverReturns(s, q.start, q.end);
    QuietKeepsAbsent(s, q);
    hide *;
    AcceptedPassIsWhole(s, q);
  }

  /** The row that answers for a listed file has the hash of the file. */
  ghost predicate HitRight(s: Setting, q: Pass, p: Str) {
    var tree := s.h(q.middle);
    Visible(s, tree, p) && p in q.known && Fits(tree, p, q.known[p]) ==> q.known[p].hash == s.hash(tree[p].content)
  }

  lemma HitRightExactly(s: Setting, q: Pass, p: Str)
    requires Reads(s)
    ensures HitRight(s, q, p) <==>
      EntryFrom(s, q.listing, q.known, s.h(q.middle), s.h(q.middle), p) ==
      EntryFrom(s, q.listing, map[], s.h(q.middle), s.h(q.middle), p)
  {
    hide IsSafeRelativePath;
    var tree := s.h(q.middle);
    if p in tree && tree[p].Regular? { assert s.read(tree, p) == Some(tree[p].content); }
  }

  lemma BlankEntries(s: Setting, listing: Listing, rows: Rows, tree: Tree, p: Str)
    ensures var a, b := EntryFrom(s, listing, rows, tree, tree, p), EntryFrom(s, listing, map[], tree, tree, p);
      Blank(a) == Blank(b) <==> a == b
  {
    hide IsSafeRelativePath;
  }

  /** In a pass nobody edits in, each entry is that of one moment, with the index as it is. */
  lemma QuietEntry(s: Setting, q: Pass, k: nat)
    requires Reads(s) && Observed(s, q) && Quiet(s, q.start, q.end) && k < |q.listing.paths|
    ensures Blank(EntryAt(s, q.listing, q.known, q.looks[k], q.listing.paths[k])) ==
      Blank(EntryFrom(s, q.listing, q.known, s.h(q.middle), s.h(q.middle), q.listing.paths[k]))
  {
    var p, look := q.listing.paths[k], q.looks[k];
    assert q.start <= q.middle <= look.meta <= look.data <= q.end;
    if !s.excluded(p) {
      assert SameContent(s.h(q.start), s.h(look.meta), p) && SameContent(s.h(q.start), s.h(look.data), p);
      assert SameContent(s.h(q.start), s.h(q.middle), p);
      hide Observed, Quiet, EntryFrom, Blank, Reads;
      EntryOfSameContent(s, q.listing, q.known, s.h(look.meta), s.h(look.data), s.h(q.middle), p);
    }
  }

  /** Entries that agree in presence agree one by one when the lists agree. */
  lemma {:induction false} CollectedDecodes(s: Setting, listing: Listing, rows: Rows, paths: seq<Str>,
                                            looks: seq<Look>, tree: Tree, k: nat)
    requires |looks| == |paths| && k < |paths|
    requires forall i :: 0 <= i < |paths| ==>
      (EntryAt(s, listing, rows, looks[i], paths[i]).Some? <==>
        EntryFrom(s, listing, map[], tree, tree, paths[i]).Some?)
    requires Stripped(Collected(s, listing, rows, paths, looks)) == Stripped(Full(s, listing, paths, tree))
    ensures Blank(EntryAt(s, listing, rows, looks[k], paths[k])) ==
      Blank(EntryFrom(s, listing, map[], tree, tree, paths[k]))
  {
    hide EntryFrom, EntryAt, Blank, Listed;
    var n := |paths| - 1;
    var e, f := EntryAt(s, listing, rows, looks[n], paths[n]), EntryFrom(s, listing, map[], tree, tree, paths[n]);
    var a, b := Collected(s, listing, rows, paths[..n], looks[..n]), Full(s, listing, paths[..n], tree);
    assert Collected(s, listing, rows, paths, looks) == a + Listed(e) && Full(s, listing, paths, tree) == b + Listed(f);
    StrippedConcat(a, e);
    StrippedConcat(b, f);
    BlankSome(e);
    BlankSome(f);
    LastAgrees(Stripped(a), Stripped(b), Blank(e), Blank(f));
    if k < n {
      CollectedDecodes(s, listing, rows, paths[..n], looks[..n], tree, k);
    }
  }

  lemma LastAgrees(a: seq<FileEntry>, b: seq<FileEntry>, e: Option<FileEntry>, f: Option<FileEntry>)
    requires a + Listed(e) == b + Listed(f) && (e.Some? <==> f.Some?)
    ensures a == b && e == f
  {
    var x, y := a + Listed(e), b + Listed(f);
    assert |Listed(e)| == |Listed(f)|;
    assert a == x[..|a|] && b == y[..|b|];
    if e.Some? { assert x[|a|] == e.value && y[|b|] == f.value; }
  }

  /** A pass nobody edits in is whole exactly when every row that answers for a listed file is right:
      its own sweeps say nothing of rows that were there before. */
  lemma QuietPassExactly(s: Setting, q: Pass)
    requires Reads(s) && Observed(s, q) && Quiet(s, q.start, q.end)
    ensures Stripped(EntriesOf(s, q)) == Stripped(Full(s, q.listing, q.listing.paths, s.h(q.middle))) <==>
      forall p :: p in q.listing.paths ==> HitRight(s, q, p)
  {
    var paths, tree := q.listing.paths, s.h(q.middle);
    forall k | 0 <= k < |paths|
      ensures EntryAt(s, q.listing, q.known, q.looks[k], paths[k]).Some? <==>
        EntryFrom(s, q.listing, map[], tree, tree, paths[k]).Some?
      ensures HitRight(s, q, paths[k]) <==>
        Blank(EntryAt(s, q.listing, q.known, q.looks[k], paths[k])) ==
        Blank(EntryFrom(s, q.listing, map[], tree, tree, paths[k]))
    {
      QuietEntry(s, q, k);
      BlankPresence(EntryAt(s, q.listing, q.known, q.looks[k], paths[k]),
                    EntryFrom(s, q.listing, q.known, tree, tree, paths[k]));
      hide Observed, Quiet, Reads, HitRight, Blank, EntryAt;
      HitRightExactly(s, q, paths[k]);
      BlankEntries(s, q.listing, q.known, tree, paths[k]);
    }
    hide Quiet, Reads, HitRight, Blank, EntryAt, EntryFrom, Stripped;
    if forall p :: p in paths ==> HitRight(s, q, p) {
      CollectedIsFull(s, q.listing, q.known, paths, q.looks, tree);
    } else if Stripped(EntriesOf(s, q)) == Stripped(Full(s, q.listing, paths, tree)) {
      var p :| p in paths && !HitRight(s, q, p);
      var k :| 0 <= k < |paths| && paths[k] == p;
      CollectedDecodes(s, q.listing, q.known, paths, q.looks, tree, k);
    }
  }

  lemma BlankSome(e: Option<FileEntry>)
    ensures Blank(e).Some? <==> e.Some?
  {
  }

  lemma BlankPresence(a: Option<FileEntry>, b: Option<FileEntry>)
    requires Blank(a) == Blank(b)
    ensures a.Some? <==> b.Some?
  {
  }

  lemma QuietKeepsAbsent(s: Setting, q: Pass)
    requires Observed(s, q) && Quiet(s, q.start, q.end)
    ensures AbsentStays(s, q)
  {
    forall p, t: nat | p in q.listing.paths && !s.excluded(p) && p !in q.before && q.middle <= t <= q.again
      ensures p !in s.h(t)
    {
      var k :| 0 <= k < |q.listing.paths| && q.listing.paths[k] == p;
      assert Get(q.before, p) == StampAt(s.h(q.firstAt[k]), p);
      assert SameContent(s.h(q.start), s.h(q.firstAt[k]), p) && SameContent(s.h(q.start), s.h(t), p);
    }
  }

  // ---- a phantom ----

  /** A file that exists at one moment only. */
  function Blink(path: Str, content: Str): History {
    (t: nat) => if t == 2 then map[path := Regular(content, 0, false)] else map[]
  }

  /** A pass over a listing with that file: absent at both sweeps, present when looked at. */
  function BlinkPass(path: Str): Pass {
    var listing := Listing([path], {}, {}, [], false);
    Pass(0, listing, [0], map[], 1, map[], [Look(2, 2)], 3, listing, [3], map[], 3)
  }

  /** A tracked file that is put back and removed while the pass hashes gets into the entries of an
      accepted pass, though no stamp ever returns and neither sweep saw the file. */
  lemma PhantomAccepted(path: Str, content: Str, hash: Str -> Str)
    requires IsSafeRelativePath(path)
    ensures var s := OneFile(path, Blink(path, content), hash); var q := BlinkPass(path);
      && Reads(s) && NeverReturns(s) && Truthful(s, q.known, q.middle) && Observed(s, q) && Settled(q)
      && HasPhantom(s, q)
      && (exists e :: e in EntriesOf(s, q) && e.path == path)
      && Full(s, q.listing, q.listing.paths, s.h(q.middle)) == []
  {
    hide IsSafeRelativePath;
    var s, q := OneFile(path, Blink(path, content), hash), BlinkPass(path);
    assert Phantom(s, q, 0);
    CollectedHas(s, q.listing, q.known, q.listing.paths, q.looks, 0);
    assert EntryAt(s, q.listing, q.known, q.looks[0], path).Some?;
    assert q.listing.paths[..0] == [];
    BlinkNeverReturns(path, content, hash);
  }

  lemma BlinkNeverReturns(path: Str, content: Str, hash: Str -> Str)
    ensures NeverReturns(OneFile(path, Blink(path, content), hash))
  {
  }
}
