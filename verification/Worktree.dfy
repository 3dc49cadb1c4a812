/** A file system that is edited while it is read, and what one look at a path yields
    (crates/rc-agent/src/scanner.rs, crates/rc-agent/src/index.rs). */
module Worktree {
  import opened Text
  import opened Sorting
  import opened Manifest
  import opened StatIndexes

  const ENTRY_FILE: int := 0
  const ENTRY_SYMLINK: int := 1

  datatype Node =
    | Regular(content: Str, mtime: int, executable: bool)
    | Link(target: Str, linkTime: int)
    | Folder(size: nat, folderTime: int)

  type Tree = map<Str, Node>

  /** The tree at every moment; other processes edit it between any two observations. */
  type History = nat -> Tree

  function StampOf(n: Node): Stamp {
    match n
    case Regular(content, mtime, _) => Stamp(|content|, mtime)
    case Link(target, mtime) => Stamp(|target|, mtime)
    case Folder(size, mtime) => Stamp(size, mtime)
  }

  function StampAt(tree: Tree, path: Str): Option<Stamp> {
    if path in tree then Some(StampOf(tree[path])) else None
  }

  /** A node without its mode bits: changing those leaves no trace in the stamp. */
  function Bare(n: Node): Node {
    if n.Regular? then n.(executable := false) else n
  }

  predicate SameContent(a: Tree, b: Tree, path: Str) {
    (path in a <==> path in b) && (path in a ==> Bare(a[path]) == Bare(b[path]))
  }

  /** The surroundings of a scan. `read` is what opening a path yields, `list` the enumeration. */
  datatype Setting = Setting(
    h: History,
    read: (Tree, Str) -> Option<Str>,
    hash: Str -> Str,
    lower: Str -> Str,
    list: nat -> Option<Listing>,
    excluded: Str -> bool)

  /** `included` are the paths only the include patterns produced. */
  datatype Listing = Listing(paths: seq<Str>, included: set<Str>, clean: set<Str>, baseCommit: Str, baseline: bool)

  /** Reading a regular file yields its content. */
  ghost predicate Reads(s: Setting) {
    forall tree: Tree, p: Str {:trigger s.read(tree, p)} ::
      p in tree && tree[p].Regular? ==> s.read(tree, p) == Some(tree[p].content)
  }

  /** An enumeration is sorted and deduplicated. */
  ghost predicate Lists(s: Setting) {
    forall t: nat {:trigger s.list(t)} :: s.list(t).Some? ==> Ascending(s.list(t).value.paths)
  }

  // ---- kinds of histories ----

  ghost predicate Between(h: History, p: Str, a: nat, u: nat, t: nat) {
    StampAt(h(a), p).Some? && StampAt(h(a), p) == StampAt(h(t), p) ==> SameContent(h(a), h(u), p)
  }

  /** Between `from` and `to`, a path seen twice with one stamp was the same all the time between.
      Paths may come and go, and excluded ones may do anything. */
  ghost predicate NoReturn(s: Setting, from: nat, to: nat) {
    forall p, a: nat, u: nat, t: nat ::
      from <= a <= u <= t <= to && !s.excluded(p) ==> Between(s.h, p, a, u, t)
  }

  /** The same without an end. */
  ghost predicate NeverReturns(s: Setting) {
    forall p, a: nat, u: nat, t: nat :: a <= u <= t && !s.excluded(p) ==> Between(s.h, p, a, u, t)
  }

  /** A stamp may come back, but with the content it had. */
  ghost predicate StampTells(s: Setting) {
    forall p, a: nat, t: nat :: !s.excluded(p) ==> Tells(s.h, p, a, t)
  }

  ghost predicate Tells(h: History, p: Str, a: nat, t: nat) {
    p in h(a) && h(a)[p].Regular? && p in h(t) && h(t)[p].Regular? && StampOf(h(a)[p]) == StampOf(h(t)[p]) ==>
      h(a)[p].content == h(t)[p].content
  }

  /** Nobody edits anything but excluded paths and mode bits from `from` to `to`. */
  ghost predicate Quiet(s: Setting, from: nat, to: nat) {
    forall p, t: nat {:trigger SameContent(s.h(from), s.h(t), p)} ::
      from <= t <= to && !s.excluded(p) ==> SameContent(s.h(from), s.h(t), p)
  }

  /** What a stat cache needs of the time during which it records: either no stamp ever returns
      after a change, or no file is edited meanwhile and a stamp that returns brings its content
      back. */
  ghost predicate Trusted(s: Setting, from: nat, to: nat) {
    NeverReturns(s) || (StampTells(s) && Quiet(s, from, to))
  }

  lemma QuietWithin(s: Setting, from: nat, to: nat, a: nat, b: nat)
    requires Quiet(s, from, to) && from <= a <= b <= to
    ensures Quiet(s, a, b)
  {
    forall p, t: nat | a <= t <= b && !s.excluded(p) ensures SameContent(s.h(a), s.h(t), p) {
      assert SameContent(s.h(from), s.h(a), p) && SameContent(s.h(from), s.h(t), p);
    }
  }

  lemma TrustedWithin(s: Setting, from: nat, to: nat, a: nat, b: nat)
    requires Trusted(s, from, to) && from <= a <= b <= to
    ensures Trusted(s, a, b)
  {
    hide Quiet, NeverReturns, StampTells;
    if !NeverReturns(s) { QuietWithin(s, from, to, a, b); }
  }

  lemma NeverReturnsWithin(s: Setting, from: nat, to: nat)
    requires NeverReturns(s)
    ensures NoReturn(s, from, to)
  {
    hide Between;
  }

  lemma NoReturnWithin(s: Setting, from: nat, to: nat, a: nat, b: nat)
    requires NoReturn(s, from, to) && from <= a <= b <= to
    ensures NoReturn(s, a, b)
  {
    hide Between;
  }

  lemma TrustedNoReturn(s: Setting, from: nat, to: nat, a: nat, b: nat)
    requires Trusted(s, from, to) && from <= a <= b <= to
    ensures NoReturn(s, a, b)
  {
    hide NeverReturns, StampTells, Quiet, NoReturn;
    if NeverReturns(s) {
      NeverReturnsWithin(s, a, b);
    } else {
      QuietWithin(s, from, to, a, b);
      QuietNeverReturns(s, a, b);
    }
  }

  lemma QuietNeverReturns(s: Setting, from: nat, to: nat)
    requires Quiet(s, from, to)
    ensures NoReturn(s, from, to)
  {
    forall p, a: nat, u: nat, t: nat | from <= a <= u <= t <= to && !s.excluded(p) ensures Between(s.h, p, a, u, t) {
      assert SameContent(s.h(from), s.h(a), p) && SameContent(s.h(from), s.h(u), p);
    }
  }

  // ---- entries ----

  function Content(s: Setting, tree: Tree, path: Str): Str {
    if s.read(tree, path).Some? then s.read(tree, path).value else []
  }

  /** What an entry says of a file's content: the recorded hash if there is a fitting row, and
      otherwise the hash of what reading yields. */
  function HashFor(s: Setting, rows: Rows, path: Str, stamp: Stamp, data: Tree): Str {
    if Hit(rows, path, stamp) then rows[path].hash else s.hash(Content(s, data, path))
  }

  /** What `read_link` yields; nothing when the path is no link any more. */
  function LinkTarget(tree: Tree, path: Str): Str {
    if path in tree && tree[path].Link? then tree[path].target else []
  }

  /** A path that is synced as a file: a safe name for a file or a link. */
  predicate Visible(s: Setting, tree: Tree, path: Str) {
    !s.excluded(path) && IsSafeRelativePath(path) && path in tree && !tree[path].Folder?
  }

  /** The entry of one path whose metadata was read from `meta`, and its content or its link target
      from `data`. */
  function EntryFrom(s: Setting, listing: Listing, rows: Rows, meta: Tree, data: Tree, path: Str)
    : (e: Option<FileEntry>)
    ensures e.Some? <==> Visible(s, meta, path)
    ensures e.Some? ==> e.value.path == path
  {
    if !Visible(s, meta, path) then None
    else if meta[path].Link? then
      var target := LinkTarget(data, path);
      Some(FileEntry(path, |target|, s.hash(target), ENTRY_SYMLINK, false, false, target))
    else
      Some(FileEntry(path, |meta[path].content|, HashFor(s, rows, path, StampOf(meta[path]), data), ENTRY_FILE,
                     meta[path].executable, path in listing.clean, []))
  }

  /** When one path was looked at: its metadata, then its content. */
  datatype Look = Look(meta: nat, data: nat)

  function EntryAt(s: Setting, listing: Listing, rows: Rows, look: Look, path: Str): Option<FileEntry> {
    EntryFrom(s, listing, rows, s.h(look.meta), s.h(look.data), path)
  }

  function Collected(s: Setting, listing: Listing, rows: Rows, paths: seq<Str>, looks: seq<Look>): seq<FileEntry>
    requires |looks| == |paths|
  {
    if paths == [] then []
    else
      var n := |paths| - 1;
      Collected(s, listing, rows, paths[..n], looks[..n]) + Listed(EntryAt(s, listing, rows, looks[n], paths[n]))
  }

  function Listed(e: Option<FileEntry>): seq<FileEntry> {
    if e.Some? then [e.value] else []
  }

  /** Every listed file of one tree hashed: what a scan without an index, of a tree nobody edits,
      would produce. */
  function Full(s: Setting, listing: Listing, paths: seq<Str>, tree: Tree): seq<FileEntry> {
    if paths == [] then []
    else
      var n := |paths| - 1;
      Full(s, listing, paths[..n], tree) + Listed(EntryFrom(s, listing, map[], tree, tree, paths[n]))
  }

  function Stripped(entries: seq<FileEntry>): (r: seq<FileEntry>)
    ensures |r| == |entries|
    ensures forall k :: 0 <= k < |r| ==> r[k] == entries[k].(executable := false)
  {
    seq(|entries|, k requires 0 <= k < |entries| => entries[k].(executable := false))
  }

  function Blank(e: Option<FileEntry>): Option<FileEntry> {
    if e.Some? then Some(e.value.(executable := false)) else None
  }

  lemma StrippedConcat(entries: seq<FileEntry>, e: Option<FileEntry>)
    ensures Stripped(entries + Listed(e)) == Stripped(entries) + Listed(Blank(e))
  {
  }

  /** A listed path that is read as a regular file and has no fitting row. */
  predicate Missed(s: Setting, rows: Rows, meta: Tree, path: Str) {
    Visible(s, meta, path) && meta[path].Regular? && !Hit(rows, path, StampOf(meta[path]))
  }

  /** A file without a fitting row that cannot be read. */
  predicate Unread(s: Setting, rows: Rows, path: Str, look: Look) {
    Missed(s, rows, s.h(look.meta), path) && s.read(s.h(look.data), path).None?
  }

  ghost predicate NoneUnread(s: Setting, rows: Rows, paths: seq<Str>, looks: seq<Look>) {
    forall k: nat :: k < |paths| && k < |looks| ==> !Unread(s, rows, paths[k], looks[k])
  }

  // ---- the entries of a pass, said of what was looked at ----

  /** A safe path that is not excluded, with a file or a link at it. */
  ghost predicate Synced(s: Setting, tree: Tree, path: Str) {
    !s.excluded(path) && IsSafeRelativePath(path) && path in tree && (tree[path].Regular? || tree[path].Link?)
  }

  /** The file as it was when its metadata was read. Its hash is that of a row with the same size and
      time, and otherwise that of what reading it yielded. */
  ghost predicate ToldFile(e: FileEntry, s: Setting, listing: Listing, rows: Rows, look: Look, path: Str) {
    && path in s.h(look.meta) && s.h(look.meta)[path].Regular?
    && var n := s.h(look.meta)[path];
    && e.path == path && e.size == |n.content| && e.kind == 0 && e.executable == n.executable
    && e.symlinkTarget == [] && (e.inBaseline <==> path in listing.clean)
    && (path in rows && rows[path].stamp == Stamp(|n.content|, n.mtime) ==> e.hash == rows[path].hash)
    && (!(path in rows && rows[path].stamp == Stamp(|n.content|, n.mtime)) ==>
        var read := s.read(s.h(look.data), path); read.Some? && e.hash == s.hash(read.value))
  }

  /** The link: its content is its target, which the second look reads. */
  ghost predicate ToldLink(e: FileEntry, s: Setting, look: Look, path: Str) {
    && path in s.h(look.meta) && s.h(look.meta)[path].Link?
    && var data := s.h(look.data);
    && var target := if path in data && data[path].Link? then data[path].target else [];
    && e.path == path && e.size == |target| && e.hash == s.hash(target) && e.kind == 1
    && e.symlinkTarget == target && !e.executable && !e.inBaseline
  }

  ghost predicate Told(e: FileEntry, s: Setting, listing: Listing, rows: Rows, look: Look, path: Str) {
    Synced(s, s.h(look.meta), path) && (ToldFile(e, s, listing, rows, look, path) || ToldLink(e, s, look, path))
  }

  ghost predicate ToldOf(e: FileEntry, s: Setting, listing: Listing, rows: Rows, looks: seq<Look>, k: nat) {
    k < |listing.paths| && k < |looks| && Told(e, s, listing, rows, looks[k], listing.paths[k])
  }

  ghost predicate ToldIn(entries: seq<FileEntry>, s: Setting, listing: Listing, rows: Rows, looks: seq<Look>, k: nat) {
    exists e :: e in entries && ToldOf(e, s, listing, rows, looks, k)
  }

  ghost predicate ToldSomewhere(e: FileEntry, s: Setting, listing: Listing, rows: Rows, looks: seq<Look>) {
    exists k: nat :: ToldOf(e, s, listing, rows, looks, k)
  }

  /** One entry for every listed path that is synced, none for any other, in the order of their paths. */
  ghost predicate EntriesTold(entries: seq<FileEntry>, s: Setting, listing: Listing, rows: Rows, looks: seq<Look>) {
    && (forall k: nat :: k < |listing.paths| && k < |looks| && Synced(s, s.h(looks[k].meta), listing.paths[k]) ==>
        ToldIn(entries, s, listing, rows, looks, k))
    && (forall e :: e in entries ==> ToldSomewhere(e, s, listing, rows, looks))
    && forall i, j :: 0 <= i < j < |entries| ==>
      Leq(entries[i].path, entries[j].path) && entries[i].path != entries[j].path
  }

  lemma EntryIsTold(s: Setting, listing: Listing, rows: Rows, look: Look, path: Str)
    requires !Unread(s, rows, path, look)
    ensures var e := EntryAt(s, listing, rows, look, path);
      (e.Some? <==> Synced(s, s.h(look.meta), path)) && (e.Some? ==> Told(e.value, s, listing, rows, look, path))
  {
    hide IsSafeRelativePath;
  }

  lemma {:induction false} CollectedIsTold(s: Setting, listing: Listing, rows: Rows, looks: seq<Look>, n: nat)
    requires |looks| == |listing.paths| && n <= |looks| && NoneUnread(s, rows, listing.paths, looks)
    ensures var entries := Collected(s, listing, rows, listing.paths[..n], looks[..n]);
      && (forall e :: e in entries ==> ToldSomewhere(e, s, listing, rows, looks))
      && (forall k: nat :: k < n && Synced(s, s.h(looks[k].meta), listing.paths[k]) ==>
          ToldIn(entries, s, listing, rows, looks, k))
  {
    hide Told, Synced, EntryAt, Unread;
    if n > 0 {
      var m := n - 1;
      var before := Collected(s, listing, rows, listing.paths[..m], looks[..m]);
      var e := EntryAt(s, listing, rows, looks[m], listing.paths[m]);
      assert listing.paths[..n][..m] == listing.paths[..m] && looks[..n][..m] == looks[..m];
      CollectedIsTold(s, listing, rows, looks, m);
      EntryIsTold(s, listing, rows, looks[m], listing.paths[m]);
      hide Collected;
      assert e.Some? ==> ToldOf(e.value, s, listing, rows, looks, m);
      forall k: nat | k < n && Synced(s, s.h(looks[k].meta), listing.paths[k])
        ensures ToldIn(before + Listed(e), s, listing, rows, looks, k) {
        if k < m {
          var d :| d in before && ToldOf(d, s, listing, rows, looks, k);
          assert d in before + Listed(e);
        } else {
          assert e.value in before + Listed(e);
        }
      }
    }
  }

  // ---- rows that tell the truth ----

  predicate Fits(tree: Tree, path: Str, row: Stat) {
    path in tree && tree[path].Regular? && StampOf(tree[path]) == row.stamp
  }

  /** Whenever a file has the recorded stamp, from `now` on, it has the recorded hash. */
  ghost predicate RowTrue(s: Setting, path: Str, row: Stat, now: nat) {
    forall t: nat {:trigger s.h(t)} ::
      t >= now && Fits(s.h(t), path, row) ==> row.hash == s.hash(s.h(t)[path].content)
  }

  /** The index will not lie from now on. */
  ghost predicate Truthful(s: Setting, rows: Rows, now: nat) {
    forall p :: p in rows && !s.excluded(p) ==> RowTrue(s, p, rows[p], now)
  }

  /** The row was recorded from a regular file with this stamp, read no earlier. */
  ghost predicate Witnessed(s: Setting, path: Str, row: Stat, look: Look) {
    && look.meta <= look.data
    && path in s.h(look.meta) && s.h(look.meta)[path].Regular? && StampOf(s.h(look.meta)[path]) == row.stamp
    && row.hash == s.hash(Content(s, s.h(look.data), path))
  }

  /** A row recorded by any pass, however torn, stays true in a history where no stamp returns
      after a change: it is only ever used for the very content it was made from. */
  lemma TornRowStaysTrue(s: Setting, path: Str, row: Stat, look: Look, now: nat)
    requires Reads(s) && NeverReturns(s) && !s.excluded(path)
    requires Witnessed(s, path, row, look) && look.data <= now
    ensures RowTrue(s, path, row, now)
  {
    forall t: nat | t >= now && Fits(s.h(t), path, row)
      ensures row.hash == s.hash(s.h(t)[path].content)
    {
      assert Between(s.h, path, look.meta, look.data, t);
      assert Between(s.h, path, look.meta, t, t);
      hide NeverReturns;
      assert s.read(s.h(look.data), path) == Some(s.h(look.data)[path].content);
    }
  }

  /** A row recorded from one content stays true even where stamps return, if they bring their
      content back. */
  lemma WholeRowStaysTrue(s: Setting, path: Str, row: Stat, look: Look, now: nat)
    requires Reads(s) && StampTells(s) && !s.excluded(path)
    requires Witnessed(s, path, row, look) && SameContent(s.h(look.meta), s.h(look.data), path)
    ensures RowTrue(s, path, row, now)
  {
    forall t: nat | t >= now && Fits(s.h(t), path, row)
      ensures row.hash == s.hash(s.h(t)[path].content)
    {
      assert Tells(s.h, path, look.meta, t);
      hide StampTells;
      assert s.read(s.h(look.data), path) == Some(s.h(look.data)[path].content);
    }
  }

  /** The row's hash is of the very content its stamp was read of. */
  ghost predicate Untorn(s: Setting, path: Str, row: Stat, look: Look) {
    path in s.h(look.meta) && s.h(look.meta)[path].Regular? && row.hash == s.hash(s.h(look.meta)[path].content)
  }

  ghost predicate NeverFits(s: Setting, path: Str, row: Stat, now: nat) {
    forall t: nat :: t >= now ==> !Fits(s.h(t), path, row)
  }

  /** Where stamps that return bring their content back, a row stays true exactly when it is not
      torn, or is never used again. */
  lemma RowStaysTrueExactly(s: Setting, path: Str, row: Stat, look: Look, now: nat)
    requires StampTells(s) && !s.excluded(path) && Witnessed(s, path, row, look)
    ensures RowTrue(s, path, row, now) <==> Untorn(s, path, row, look) || NeverFits(s, path, row, now)
  {
    forall t: nat | t >= now && Fits(s.h(t), path, row)
      ensures s.h(t)[path].content == s.h(look.meta)[path].content
    {
      assert Tells(s.h, path, look.meta, t);
    }
  }

  lemma RecordedRowStaysTrue(s: Setting, path: Str, row: Stat, look: Look, from: nat, now: nat)
    requires Reads(s) && Trusted(s, from, now) && !s.excluded(path)
    requires Witnessed(s, path, row, look) && from <= look.meta && look.data <= now
    ensures RowTrue(s, path, row, now)
  {
    hide Reads, NeverReturns, StampTells, RowTrue;
    if NeverReturns(s) {
      TornRowStaysTrue(s, path, row, look, now);
    } else {
      assert SameContent(s.h(from), s.h(look.meta), path) && SameContent(s.h(from), s.h(look.data), path);
      WholeRowStaysTrue(s, path, row, look, now);
    }
  }

  lemma TruthfulLater(s: Setting, rows: Rows, now: nat, later: nat)
    requires Truthful(s, rows, now) && now <= later
    ensures Truthful(s, rows, later)
  {
    forall p | p in rows && !s.excluded(p) ensures RowTrue(s, p, rows[p], later) {
      assert RowTrue(s, p, rows[p], now);
    }
  }

  lemma TruthfulRetained(s: Setting, rows: Rows, live: set<Str>, now: nat)
    requires Truthful(s, rows, now)
    ensures Truthful(s, Retained(rows, live), now)
  {
    hide RowTrue;
  }

  // ---- rows recorded since ----

  /** A row that `first` does not have. */
  predicate Recent(first: Rows, rows: Rows, path: Str) {
    path in rows && !(path in first && first[path] == rows[path])
  }

  ghost predicate WitnessedWithin(s: Setting, path: Str, row: Stat, from: nat, to: nat) {
    exists look: Look :: from <= look.meta && look.data <= to && Witnessed(s, path, row, look)
  }

  /** Every row is one of `first`, or was recorded from what was read between these moments. */
  ghost predicate Inherited(s: Setting, first: Rows, rows: Rows, from: nat, to: nat) {
    forall p :: Recent(first, rows, p) ==> WitnessedWithin(s, p, rows[p], from, to)
  }

  lemma InheritedOnwards(s: Setting, first: Rows, had: Rows, rows: Rows, from: nat, turn: nat, to: nat)
    requires from <= turn <= to && Inherited(s, first, had, from, turn) && Inherited(s, had, rows, turn, to)
    ensures Inherited(s, first, rows, from, to)
  {
    hide Witnessed;
    forall p | Recent(first, rows, p) ensures WitnessedWithin(s, p, rows[p], from, to) {
      if Recent(had, rows, p) {
        assert WitnessedWithin(s, p, rows[p], turn, to);
      } else {
        assert WitnessedWithin(s, p, had[p], from, turn);
      }
    }
  }

  lemma InheritedRetained(s: Setting, first: Rows, rows: Rows, live: set<Str>, from: nat, to: nat)
    requires Inherited(s, first, rows, from, to)
    ensures Inherited(s, first, Retained(rows, live), from, to)
  {
    hide WitnessedWithin;
    forall p | Recent(first, Retained(rows, live), p) ensures WitnessedWithin(s, p, rows[p], from, to) {
      assert Recent(first, rows, p);
    }
  }

  /** Every row recorded since is whole, or is never used again. */
  ghost predicate RecentHarmless(s: Setting, first: Rows, rows: Rows, from: nat, now: nat) {
    forall p, look: Look ::
      Recent(first, rows, p) && !s.excluded(p) && from <= look.meta && look.data <= now &&
        Witnessed(s, p, rows[p], look) ==>
        Untorn(s, p, rows[p], look) || NeverFits(s, p, rows[p], now)
  }

  /** Where stamps that return bring their content back, an index that was truthful and recorded
      anything since, however torn, is truthful exactly when every torn row is never used again. */
  lemma TruthfulExactly(s: Setting, first: Rows, rows: Rows, from: nat, now: nat)
    requires StampTells(s) && Truthful(s, first, from) && from <= now && Inherited(s, first, rows, from, now)
    ensures Truthful(s, rows, now) <==> RecentHarmless(s, first, rows, from, now)
  {
    hide StampTells, Witnessed, RowTrue, Untorn, NeverFits;
    TruthfulLater(s, first, from, now);
    forall p, look: Look | Recent(first, rows, p) && !s.excluded(p) && Witnessed(s, p, rows[p], look)
      ensures RowTrue(s, p, rows[p], now) <==> Untorn(s, p, rows[p], look) || NeverFits(s, p, rows[p], now)
    {
      RowStaysTrueExactly(s, p, rows[p], look, now);
    }
    if RecentHarmless(s, first, rows, from, now) {
      forall p | p in rows && !s.excluded(p) ensures RowTrue(s, p, rows[p], now) {
        if Recent(first, rows, p) {
          assert WitnessedWithin(s, p, rows[p], from, now);
        } else {
          assert RowTrue(s, p, first[p], now);
        }
      }
    }
  }

  /** With a truthful index the entry of an unchanged file is the one hashing it would give. */
  lemma HitIsCurrent(s: Setting, listing: Listing, rows: Rows, now: nat, t: nat, path: Str)
    requires Reads(s) && Truthful(s, rows, now) && now <= t
    ensures EntryFrom(s, listing, rows, s.h(t), s.h(t), path) == EntryFrom(s, listing, map[], s.h(t), s.h(t), path)
  {
    hide IsSafeRelativePath;
    if Visible(s, s.h(t), path) && s.h(t)[path].Regular? && Hit(rows, path, StampOf(s.h(t)[path])) {
      assert RowTrue(s, path, rows[path], now);
      assert s.read(s.h(t), path) == Some(s.h(t)[path].content);
    }
  }

  // ---- why a pass in which files change needs more ----

  /** A file that is `x`, for one moment `y`, and `x` again with its old time. */
  function Restored(path: Str, x: Str, y: Str): History {
    (t: nat) => map[path := if t == 1 then Regular(y, 1, false) else Regular(x, 0, false)]
  }

  function OneFile(path: Str, h: History, hash: Str -> Str): Setting {
    Setting(h, (tree: Tree, p: Str) => if p in tree && tree[p].Regular? then Some(tree[p].content) else None,
            hash, (p: Str) => p, (t: nat) => Some(Listing([path], {}, {}, [], false)), (p: Str) => false)
  }

  /** A pass that reads the stamp before an edit and the content after it records a row that lies
      once the file is put back with its old time, though every stamp that returns brings its
      content back. */
  lemma TornRowCanLie(path: Str, x: Str, y: Str, hash: Str -> Str)
    requires hash(x) != hash(y)
    ensures var s := OneFile(path, Restored(path, x, y), hash); var row := Stat(Stamp(|x|, 0), hash(y));
      && Reads(s) && StampTells(s)
      && Witnessed(s, path, row, Look(0, 1)) && !RowTrue(s, path, row, 2)
  {
    var s := OneFile(path, Restored(path, x, y), hash);
    assert path in s.h(2) && s.h(2)[path] == Regular(x, 0, false);
  }
}
