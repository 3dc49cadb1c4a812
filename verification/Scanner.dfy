/** Scanning a worktree while it may be edited (crates/rc-agent/src/scanner.rs). */
module Scanner {
  import opened Text
  import opened Sorting
  import opened Manifest
  import opened StatIndexes
  import opened Worktree
  import opened Passes

  const MAX_SCAN_ATTEMPTS: nat := 3

  datatype ScanError = Unstable(attempts: nat, changed: set<Str>) | CaseConflict(a: Str, b: Str) | Other

  /** Time passes; how much is not ours to say. */
  method Wait(now: nat) returns (later: nat)
    ensures later >= now
  {
    var d: int := *;
    later := if d > 0 then now + d else now;
  }

  // ---- hashing a listing ----

  function Misses(s: Setting, rows: Rows, paths: seq<Str>, looks: seq<Look>): nat
    requires |looks| == |paths|
  {
    if paths == [] then 0
    else
      var n := |paths| - 1;
      Misses(s, rows, paths[..n], looks[..n]) + (if Missed(s, rows, s.h(looks[n].meta), paths[n]) then 1 else 0)
  }

  /** One path: `None` when it yields no entry. Only a file without a fitting row is read. */
  method HashOne(s: Setting, index: StatIndex, listing: Listing, path: Str, now: nat)
    returns (r: Result<Option<FileEntry>, ScanError>, row: Option<Stat>, later: nat, ghost look: Look)
    ensures now <= look.meta <= look.data <= later
    ensures r.Err? ==> r.error == Other && Unread(s, index.rows, path, look)
    ensures r.Ok? ==> r.value == EntryAt(s, listing, index.rows, look, path)
    ensures r.Ok? ==> !Unread(s, index.rows, path, look)
    ensures r.Ok? && r.value.Some? ==> Told(r.value.value, s, listing, index.rows, look, path)
    ensures r.Ok? ==> (r.value.Some? <==> Synced(s, s.h(look.meta), path))
    ensures r.Ok? ==> (row.Some? <==> Missed(s, index.rows, s.h(look.meta), path))
    ensures r.Ok? && row.Some? ==> Witnessed(s, path, row.value, look)
  {
    hide IsSafeRelativePath;
    later := now;
    row := None;
    look := Look(now, now);
    if s.excluded(path) || !IsSafeRelativePath(path) {
      return Ok(None), None, later, look;
    }
    later := Wait(later);
    look := Look(later, later);
    var tree := s.h(later);
    if path !in tree {
      return Ok(None), None, later, look;
    }
    match tree[path] {
      case Folder(_, _) =>
        r := Ok(None);
      case Link(_, _) =>
        later := Wait(later);
        look := Look(look.meta, later);
        var target := LinkTarget(s.h(later), path);
        r := Ok(Some(FileEntry(path, |target|, s.hash(target), ENTRY_SYMLINK, false, false, target)));
      case Regular(content, _, executable) =>
        var stamp := StampOf(tree[path]);
        var known := index.Lookup(path, stamp);
        var hash;
        if known.Some? {
          hash := known.value;
        } else {
          later := Wait(later);
          look := Look(look.meta, later);
          var data := s.read(s.h(later), path);
          if data.None? {
            return Err(Other), None, later, look;
          }
          hash := s.hash(data.value);
          row := Some(Stat(stamp, hash));
        }
        r := Ok(Some(FileEntry(path, |content|, hash, ENTRY_FILE, executable, path in listing.clean, [])));
    }
  }

  ghost predicate SomeUnread(s: Setting, rows: Rows, paths: seq<Str>, from: nat, to: nat) {
    exists look: Look, p :: from <= look.meta <= look.data <= to && p in paths && Unread(s, rows, p, look)
  }

  lemma UnreadNow(s: Setting, rows: Rows, paths: seq<Str>, i: nat, look: Look, from: nat, to: nat)
    requires i < |paths| && from <= look.meta <= look.data <= to && Unread(s, rows, paths[i], look)
    ensures SomeUnread(s, rows, paths, from, to)
  {
  }

  function FileCount(entries: seq<FileEntry>): nat {
    if entries == [] then 0
    else FileCount(entries[..|entries| - 1]) + (if entries[|entries| - 1].kind == ENTRY_FILE then 1 else 0)
  }

  /** The row for `path` that a miss leaves behind. */
  ghost predicate RecordedFor(s: Setting, rows: Rows, paths: seq<Str>, looks: seq<Look>, row: (Str, Stat), k: nat)
    requires |looks| <= |paths| && k < |looks|
  {
    && row.0 == paths[k] && Missed(s, rows, s.h(looks[k].meta), paths[k])
    && Witnessed(s, row.0, row.1, looks[k])
  }

  ghost predicate FromSomeLook(s: Setting, rows: Rows, paths: seq<Str>, looks: seq<Look>, row: (Str, Stat))
    requires |looks| <= |paths|
  {
    exists k: nat :: k < |looks| && RecordedFor(s, rows, paths, looks, row, k)
  }

  ghost predicate HasRow(s: Setting, rows: Rows, paths: seq<Str>, looks: seq<Look>, toRecord: seq<(Str, Stat)>, k: nat)
    requires |looks| <= |paths| && k < |looks|
  {
    exists j :: 0 <= j < |toRecord| && RecordedFor(s, rows, paths, looks, toRecord[j], k)
  }

  ghost predicate AllHaveRows(s: Setting, rows: Rows, paths: seq<Str>, looks: seq<Look>, toRecord: seq<(Str, Stat)>,
                              n: nat)
    requires n <= |looks| <= |paths|
  {
    forall k: nat :: k < n && Missed(s, rows, s.h(looks[k].meta), paths[k]) ==>
      HasRow(s, rows, paths, looks, toRecord, k)
  }

  /** Exactly the misses so far are to be recorded, one row each. */
  ghost predicate Pending(s: Setting, rows: Rows, paths: seq<Str>, looks: seq<Look>, toRecord: seq<(Str, Stat)>)
    requires |looks| <= |paths|
  {
    && (forall j :: 0 <= j < |toRecord| ==> FromSomeLook(s, rows, paths, looks, toRecord[j]))
    && AllHaveRows(s, rows, paths, looks, toRecord, |looks|)
    && (forall i, j :: 0 <= i < j < |toRecord| ==> toRecord[i].0 != toRecord[j].0)
  }

  lemma RecordedForLonger(s: Setting, rows: Rows, paths: seq<Str>, looks: seq<Look>, look: Look, row: (Str, Stat),
                          k: nat)
    requires |looks| < |paths| && k < |looks| && RecordedFor(s, rows, paths, looks, row, k)
    ensures RecordedFor(s, rows, paths, looks + [look], row, k)
  {
  }

  lemma RowsStay(s: Setting, rows: Rows, paths: seq<Str>, looks: seq<Look>, toRecord: seq<(Str, Stat)>, look: Look,
                 more: seq<(Str, Stat)>)
    requires |looks| < |paths| && Pending(s, rows, paths, looks, toRecord) && toRecord <= more
    ensures forall j :: 0 <= j < |toRecord| ==> FromSomeLook(s, rows, paths, looks + [look], more[j])
    ensures AllHaveRows(s, rows, paths, looks + [look], more, |looks|)
  {
    hide Missed, RecordedFor;
    var longer := looks + [look];
    forall j | 0 <= j < |toRecord| ensures FromSomeLook(s, rows, paths, longer, more[j]) {
      assert FromSomeLook(s, rows, paths, looks, toRecord[j]);
      var k: nat :| k < |looks| && RecordedFor(s, rows, paths, looks, toRecord[j], k);
      RecordedForLonger(s, rows, paths, looks, look, toRecord[j], k);
    }
    forall k: nat | k < |looks| && Missed(s, rows, s.h(longer[k].meta), paths[k])
      ensures HasRow(s, rows, paths, longer, more, k)
    {
      assert longer[k] == looks[k];
      assert HasRow(s, rows, paths, looks, toRecord, k);
      var j :| 0 <= j < |toRecord| && RecordedFor(s, rows, paths, looks, toRecord[j], k);
      RecordedForLonger(s, rows, paths, looks, look, toRecord[j], k);
      assert more[j] == toRecord[j];
    }
  }

  lemma NewRow(s: Setting, rows: Rows, paths: seq<Str>, looks: seq<Look>, toRecord: seq<(Str, Stat)>, look: Look,
               row: Stat)
    requires |looks| < |paths| && Ascending(paths) && Pending(s, rows, paths, looks, toRecord)
    requires Missed(s, rows, s.h(look.meta), paths[|looks|]) && Witnessed(s, paths[|looks|], row, look)
    ensures var more := toRecord + [(paths[|looks|], row)];
      && FromSomeLook(s, rows, paths, looks + [look], more[|toRecord|])
      && HasRow(s, rows, paths, looks + [look], more, |looks|)
      && forall i :: 0 <= i < |toRecord| ==> toRecord[i].0 != paths[|looks|]
  {
    hide Missed, Witnessed, Sorted;
    var n := |looks|;
    var more := toRecord + [(paths[n], row)];
    assert RecordedFor(s, rows, paths, looks + [look], more[|toRecord|], n);
    forall i | 0 <= i < |toRecord| ensures toRecord[i].0 != paths[n] {
      assert FromSomeLook(s, rows, paths, looks, toRecord[i]);
      var k: nat :| k < |looks| && RecordedFor(s, rows, paths, looks, toRecord[i], k);
      assert paths[k] != paths[n];
    }
  }

  lemma PendingStep(s: Setting, rows: Rows, paths: seq<Str>, looks: seq<Look>, toRecord: seq<(Str, Stat)>, look: Look,
                    row: Option<Stat>)
    requires |looks| < |paths| && Ascending(paths) && Pending(s, rows, paths, looks, toRecord)
    requires row.Some? <==> Missed(s, rows, s.h(look.meta), paths[|looks|])
    requires row.Some? ==> Witnessed(s, paths[|looks|], row.value, look)
    ensures Pending(s, rows, paths, looks + [look],
                    if row.Some? then toRecord + [(paths[|looks|], row.value)] else toRecord)
  {
    hide Missed, Witnessed, FromSomeLook, HasRow, Ascending;
    RowsStay(s, rows, paths, looks, toRecord, look,
             if row.Some? then toRecord + [(paths[|looks|], row.value)] else toRecord);
    if row.Some? {
      NewRow(s, rows, paths, looks, toRecord, look, row.value);
    }
  }

  /** What the index now says of a path is what the pass said of it. */
  ghost predicate Replays(s: Setting, listing: Listing, known: Rows, rows: Rows, look: Look, path: Str) {
    && !Missed(s, rows, s.h(look.meta), path)
    && EntryAt(s, listing, rows, look, path) == EntryAt(s, listing, known, look, path)
  }

  ghost predicate AllReplay(s: Setting, listing: Listing, known: Rows, rows: Rows, looks: seq<Look>)
    requires |looks| == |listing.paths|
  {
    forall k :: 0 <= k < |looks| ==> Replays(s, listing, known, rows, looks[k], listing.paths[k])
  }

  lemma UnmissedReplays(s: Setting, listing: Listing, known: Rows, rows: Rows, look: Look, path: Str)
    requires !Missed(s, known, s.h(look.meta), path)
    requires path in known ==> path in rows && rows[path] == known[path]
    ensures Replays(s, listing, known, rows, look, path)
  {
    hide IsSafeRelativePath;
  }

  lemma RecordedReplays(s: Setting, listing: Listing, known: Rows, rows: Rows, look: Look, path: Str, row: Stat)
    requires Missed(s, known, s.h(look.meta), path) && Witnessed(s, path, row, look)
    requires path in rows && rows[path] == row
    ensures Replays(s, listing, known, rows, look, path)
  {
    hide IsSafeRelativePath;
  }

  /** After the misses are recorded, the index answers for each path what the pass found. */
  lemma RecordedIsKnown(s: Setting, listing: Listing, rows: Rows, looks: seq<Look>, toRecord: seq<(Str, Stat)>, k: nat)
    requires |looks| == |listing.paths| && Ascending(listing.paths) && k < |looks|
    requires Pending(s, rows, listing.paths, looks, toRecord)
    ensures Replays(s, listing, rows, Recorded(rows, toRecord), looks[k], listing.paths[k])
  {
    hide Witnessed, Missed, Sorted, Replays;
    var paths := listing.paths;
    if Missed(s, rows, s.h(looks[k].meta), paths[k]) {
      assert HasRow(s, rows, paths, looks, toRecord, k);
      var j :| 0 <= j < |toRecord| && RecordedFor(s, rows, paths, looks, toRecord[j], k);
      RecordedEntry(rows, toRecord, j);
      RecordedReplays(s, listing, rows, Recorded(rows, toRecord), looks[k], paths[k], toRecord[j].1);
    } else {
      forall j | 0 <= j < |toRecord| ensures toRecord[j].0 != paths[k] {
        assert FromSomeLook(s, rows, paths, looks, toRecord[j]);
        var i: nat :| i < |looks| && RecordedFor(s, rows, paths, looks, toRecord[j], i);
        assert i != k;
        assert paths[i] != paths[k];
      }
      if paths[k] in rows { UnrecordedRow(rows, toRecord, paths[k]); }
      UnmissedReplays(s, listing, rows, Recorded(rows, toRecord), looks[k], paths[k]);
    }
  }

  /** What is recorded was read between these moments. */
  lemma PendingInherited(s: Setting, rows: Rows, paths: seq<Str>, looks: seq<Look>, toRecord: seq<(Str, Stat)>,
                         from: nat, to: nat)
    requires |looks| == |paths| && Within(looks, from, to) && Pending(s, rows, paths, looks, toRecord)
    ensures Inherited(s, rows, Recorded(rows, toRecord), from, to)
  {
    hide Witnessed, Missed;
    var all := Recorded(rows, toRecord);
    forall p | Recent(rows, all, p) ensures WitnessedWithin(s, p, all[p], from, to) {
      RecordedRow(rows, toRecord, p);
      var j :| 0 <= j < |toRecord| && toRecord[j] == (p, all[p]);
      assert FromSomeLook(s, rows, paths, looks, toRecord[j]);
      var k: nat :| k < |looks| && RecordedFor(s, rows, paths, looks, toRecord[j], k);
      assert from <= looks[k].meta && looks[k].data <= to;
    }
  }

  lemma InheritedLonger(s: Setting, first: Rows, rows: Rows, from: nat, to: nat, earlier: nat, later: nat)
    requires Inherited(s, first, rows, from, to) && earlier <= from && to <= later
    ensures Inherited(s, first, rows, earlier, later)
  {
    hide Witnessed;
    forall p | Recent(first, rows, p) ensures WitnessedWithin(s, p, rows[p], earlier, later) {
      assert WitnessedWithin(s, p, rows[p], from, to);
    }
  }

  lemma InheritedNothing(s: Setting, rows: Rows, from: nat, to: nat)
    ensures Inherited(s, rows, rows, from, to)
  {
  }

  lemma PendingTruthful(s: Setting, rows: Rows, paths: seq<Str>, looks: seq<Look>, toRecord: seq<(Str, Stat)>,
                        from: nat, now: nat)
    requires |looks| == |paths| && Within(looks, from, now) && Pending(s, rows, paths, looks, toRecord)
    requires Reads(s) && Truthful(s, rows, now) && Trusted(s, from, now)
    ensures Truthful(s, Recorded(rows, toRecord), now)
  {
    hide Reads, Trusted, RowTrue, Witnessed, IsSafeRelativePath;
    var all := Recorded(rows, toRecord);
    forall p | p in all && !s.excluded(p) ensures RowTrue(s, p, all[p], now) {
      RecordedRow(rows, toRecord, p);
      if !(p in rows && all[p] == rows[p]) {
        var j :| 0 <= j < |toRecord| && toRecord[j] == (p, all[p]);
        assert FromSomeLook(s, rows, paths, looks, toRecord[j]);
        var k: nat :| k < |looks| && RecordedFor(s, rows, paths, looks, toRecord[j], k);
        RecordedRowStaysTrue(s, p, all[p], looks[k], from, now);
      }
    }
  }

  lemma CollectedStep(s: Setting, listing: Listing, rows: Rows, paths: seq<Str>, looks: seq<Look>, n: nat, look: Look)
    requires n < |paths| && |looks| == n
    ensures Collected(s, listing, rows, paths[..n + 1], looks + [look]) ==
      Collected(s, listing, rows, paths[..n], looks) + Listed(EntryAt(s, listing, rows, look, paths[n]))
    ensures Misses(s, rows, paths[..n + 1], looks + [look]) ==
      Misses(s, rows, paths[..n], looks) + (if Missed(s, rows, s.h(look.meta), paths[n]) then 1 else 0)
  {
    hide EntryAt, Missed, Listed;
    assert paths[..n + 1][..n] == paths[..n] && (looks + [look])[..n] == looks;
  }

  lemma FileCountPush(entries: seq<FileEntry>, e: FileEntry)
    ensures FileCount(entries + [e]) == FileCount(entries) + (if e.kind == ENTRY_FILE then 1 else 0)
  {
    assert (entries + [e])[..|entries|] == entries;
  }

  /** `hash_entries`. */
  method HashEntries(s: Setting, index: StatIndex, listing: Listing, now: nat)
    returns (r: Result<(seq<FileEntry>, nat, nat), ScanError>, later: nat, ghost looks: seq<Look>)
    requires Ascending(listing.paths)
    modifies index
    ensures later >= now
    ensures r.Err? ==> r.error == Other && index.rows == old(index.rows)
    ensures r.Err? ==> SomeUnread(s, old(index.rows), listing.paths, now, later)
    ensures r.Ok? ==> |looks| == |listing.paths| && Within(looks, now, later)
    ensures r.Ok? ==> r.value.0 == Collected(s, listing, old(index.rows), listing.paths, looks)
    ensures r.Ok? ==> r.value.1 == Misses(s, old(index.rows), listing.paths, looks)
    ensures r.Ok? ==> r.value.1 + r.value.2 == FileCount(r.value.0)
    ensures r.Ok? ==> NoneUnread(s, old(index.rows), listing.paths, looks)
    ensures r.Ok? ==> EntriesTold(r.value.0, s, listing, old(index.rows), looks)
    ensures r.Ok? ==> Counted(s, listing, old(index.rows), looks, r.value.0, r.value.1, r.value.2)
    ensures r.Ok? ==> AllReplay(s, listing, old(index.rows), index.rows, looks)
    ensures Inherited(s, old(index.rows), index.rows, now, later)
    ensures Reads(s) && Truthful(s, old(index.rows), now) && Trusted(s, now, later) ==> Truthful(s, index.rows, later)
  {
    hide *;
    var paths := listing.paths;
    ghost var rows := index.rows;
    var entries: seq<FileEntry> := [];
    var toRecord: seq<(Str, Stat)> := [];
    var hashed, reused := 0, 0;
    later := now;
    looks := [];
    HashingStarts(s, listing, rows, paths, now);
    for i := 0 to |paths|
      invariant later >= now && |looks| == i && Within(looks, now, later) && index.rows == rows
      invariant entries == Collected(s, listing, rows, paths[..i], looks)
      invariant hashed == Misses(s, rows, paths[..i], looks)
      invariant hashed + reused == FileCount(entries)
      invariant Pending(s, rows, paths, looks, toRecord) && NoneUnread(s, rows, paths, looks)
    {
      var one, row;
      ghost var look;
      ghost var before := later;
      one, row, later, look := HashOne(s, index, listing, paths[i], later);
      if one.Err? {
        if Truthful(s, rows, now) { TruthfulLater(s, rows, now, later); }
        UnreadNow(s, rows, paths, i, look, now, later);
        InheritedNothing(s, rows, now, later);
        return Err(one.error), later, looks;
      }
      CollectedStep(s, listing, rows, paths, looks, i, look);
      PendingStep(s, rows, paths, looks, toRecord, look, row);
      WithinPush(looks, look, now, before, later);
      KindOfMiss(s, listing, rows, look, paths[i]);
      NextIsRead(s, rows, paths, looks, look);
      looks := looks + [look];
      if row.Some? {
        hashed := hashed + 1;
        toRecord := toRecord + [(paths[i], row.value)];
      }
      if one.value.Some? {
        if one.value.value.kind == ENTRY_FILE && row.None? {
          reused := reused + 1;
        }
        FileCountPush(entries, one.value.value);
        entries := entries + [one.value.value];
      }
    }
    assert paths[..|paths|] == paths;
    if Reads(s) && Truthful(s, rows, now) && Trusted(s, now, later) {
      TruthfulLater(s, rows, now, later);
      PendingTruthful(s, rows, paths, looks, toRecord, now, later);
    }
    CollectedEntriesTold(s, listing, rows, looks);
    CountsAre(s, listing, rows, looks, entries, hashed, reused);
    RecordedReplay(s, listing, rows, looks, toRecord);
    PendingInherited(s, rows, paths, looks, toRecord, now, later);
    index.RecordAll(toRecord);
    r := Ok((entries, hashed, reused));
  }

  lemma RecordedReplay(s: Setting, listing: Listing, rows: Rows, looks: seq<Look>, toRecord: seq<(Str, Stat)>)
    requires |looks| == |listing.paths| && Ascending(listing.paths) && Pending(s, rows, listing.paths, looks, toRecord)
    ensures AllReplay(s, listing, rows, Recorded(rows, toRecord), looks)
  {
    hide Replays, Pending, Ascending;
    forall k | 0 <= k < |looks|
      ensures Replays(s, listing, rows, Recorded(rows, toRecord), looks[k], listing.paths[k])
    {
      RecordedIsKnown(s, listing, rows, looks, toRecord, k);
    }
  }

  lemma WithinPush(looks: seq<Look>, look: Look, from: nat, before: nat, to: nat)
    requires Within(looks, from, before) && from <= before <= look.meta <= look.data <= to
    ensures Within(looks + [look], from, to)
  {
  }

  lemma HashingStarts(s: Setting, listing: Listing, rows: Rows, paths: seq<Str>, now: nat)
    ensures Within([], now, now) && Collected(s, listing, rows, paths[..0], []) == []
    ensures Misses(s, rows, paths[..0], []) == 0 && FileCount([]) == 0 && Pending(s, rows, paths, [], [])
    ensures NoneUnread(s, rows, paths, [])
  {
  }

  lemma KindOfMiss(s: Setting, listing: Listing, rows: Rows, look: Look, path: Str)
    ensures var e := EntryAt(s, listing, rows, look, path);
      (Missed(s, rows, s.h(look.meta), path) ==> e.Some? && e.value.kind == ENTRY_FILE) && |Listed(e)| <= 1
    ensures forall e: FileEntry :: Listed(Some(e)) == [e]
    ensures Listed(None) == []
  {
  }

  lemma NextIsRead(s: Setting, rows: Rows, paths: seq<Str>, looks: seq<Look>, look: Look)
    requires |looks| < |paths| && NoneUnread(s, rows, paths, looks) && !Unread(s, rows, paths[|looks|], look)
    ensures NoneUnread(s, rows, paths, looks + [look])
  {
    hide Unread;
  }

  // ---- the sweep ----

  /** `stat_all`: the stamp of each path that is not excluded. */
  method StatAll(s: Setting, paths: seq<Str>, now: nat) returns (stats: Stats, later: nat, ghost at: seq<nat>)
    requires Ascending(paths)
    ensures later >= now && Stated(s, paths, at, stats) && Moments(at, now, later)
  {
    hide Sorted;
    stats, later, at := map[], now, [];
    for i := 0 to |paths|
      invariant later >= now && |at| == i && Moments(at, now, later)
      invariant Stated(s, paths[..i], at, stats)
    {
      later := Wait(later);
      at := at + [later];
      if !s.excluded(paths[i]) && paths[i] in s.h(later) {
        stats := stats[paths[i] := StampOf(s.h(later)[paths[i]])];
      }
    }
    assert paths[..|paths|] == paths;
  }

  /** The paths two sweeps disagree on: appeared, gone or modified in place. */
  function Changed(before: Stats, after: Stats): (r: set<Str>)
    ensures forall p :: p in r <==> Get(before, p) != Get(after, p)
  {
    set p | p in before.Keys + after.Keys && Get(before, p) != Get(after, p)
  }

  // ---- one attempt ----

  /** Nothing moves from `from` to `to`, and every enumeration is `listing`. */
  ghost predicate Calm(s: Setting, listing: Listing, from: nat, to: nat) {
    Quiet(s, from, to) && forall t: nat :: from <= t <= to ==> s.list(t) == Some(listing)
  }

  lemma CalmWithin(s: Setting, listing: Listing, from: nat, to: nat, a: nat, b: nat)
    requires Calm(s, listing, from, to) && from <= a <= b <= to
    ensures Calm(s, listing, a, b)
  {
    hide Quiet;
    QuietWithin(s, from, to, a, b);
  }

  /** In a calm time every file that is there can be read. */
  lemma CalmReads(s: Setting, listing: Listing, rows: Rows, from: nat, to: nat)
    requires Reads(s) && Calm(s, listing, from, to)
    ensures !SomeUnread(s, rows, listing.paths, from, to)
  {
    hide IsSafeRelativePath;
    forall look: Look, p | from <= look.meta <= look.data <= to && Missed(s, rows, s.h(look.meta), p)
      ensures s.read(s.h(look.data), p).Some?
    {
      assert SameContent(s.h(from), s.h(look.meta), p) && SameContent(s.h(from), s.h(look.data), p);
    }
  }

  /** In a calm time the second sweep sees what the first saw. */
  lemma CalmSettles(s: Setting, listing: Listing, q: Pass)
    requires Observed(s, q) && Calm(s, listing, q.start, q.end)
    ensures q.listing == listing && q.relisting == listing && Changed(q.before, q.after) == {}
  {
    assert q.listing == q.relisting == listing;
    forall p ensures Get(q.before, p) == Get(q.after, p) {
      if p in listing.paths {
        var k :| 0 <= k < |listing.paths| && listing.paths[k] == p;
        var a, b := q.firstAt[k], q.secondAt[k];
        assert Get(q.before, p) == if s.excluded(p) then None else StampAt(s.h(a), p);
        assert Get(q.after, p) == if s.excluded(p) then None else StampAt(s.h(b), p);
        if !s.excluded(p) {
          assert SameContent(s.h(q.start), s.h(a), p) && SameContent(s.h(q.start), s.h(b), p);
        }
      }
    }
  }

  datatype Attempted = Attempted(listing: Listing, entries: seq<FileEntry>, hashed: nat, reused: nat, changed: set<Str>)

  /** What one turn of the loop hands on: the pass, what was hashed in it, and what the index says
      of it afterwards. */
  ghost predicate Reported(s: Setting, q: Pass, rows: Rows, hashed: nat, reused: nat) {
    && |q.looks| == |q.listing.paths|
    && hashed == Misses(s, q.known, q.listing.paths, q.looks)
    && hashed + reused == FileCount(EntriesOf(s, q))
    && AllReplay(s, q.listing, q.known, rows, q.looks)
  }

  /** Enumerate, sweep, hash, and do the first two again. */
  method Attempt(s: Setting, index: StatIndex, now: nat)
    returns (r: Result<Attempted, ScanError>, later: nat, ghost q: Pass)
    requires Lists(s)
    modifies index
    ensures later >= now
    ensures r.Err? ==> r.error == Other
    ensures r.Ok? ==> Observed(s, q) && now <= q.start && q.end <= later && q.known == old(index.rows)
    ensures r.Ok? ==> r.value.listing == q.listing && Ascending(q.listing.paths)
    ensures r.Ok? ==> r.value.entries == EntriesOf(s, q) && r.value.changed == Changed(q.before, q.after)
    ensures r.Ok? ==> Reported(s, q, index.rows, r.value.hashed, r.value.reused)
    ensures Reads(s) && Truthful(s, old(index.rows), now) && Trusted(s, now, later) ==>
      Truthful(s, index.rows, later) && (r.Ok? ==> Truthful(s, q.known, q.middle))
    ensures forall l :: Reads(s) && Calm(s, l, now, later) ==> r.Ok?
    ensures Inherited(s, old(index.rows), index.rows, now, later)
  {
    hide *;
    later := Wait(now);
    ghost var start, rows := later, index.rows;
    ghost var none := Listing([], {}, {}, [], false);
    q := Pass(0, none, [], map[], 0, map[], [], 0, none, [], map[], 0);
    var listed := s.list(later);
    if listed.None? {
      NoCalm(s, now, later, later);
      Later(s, rows, now, later, later);
      InheritedNothing(s, rows, now, later);
      return Err(Other), later, q;
    }
    var listing := listed.value;
    ListedAscends(s, start);
    var before;
    ghost var firstAt;
    before, later, firstAt := StatAll(s, listing.paths, later);
    ghost var middle := later;
    var hashing;
    ghost var looks;
    hashing, later, looks := HashEntries(s, index, listing, later);
    ghost var hashedAt := later;
    InheritedLonger(s, rows, index.rows, middle, hashedAt, now, later);
    if hashing.Err? {
      NoCalmUnread(s, listing, rows, now, start, middle, later);
      Later(s, rows, now, later, later);
      return Err(Other), later, q;
    }
    later := Wait(later);
    ghost var again := later;
    var relisted := s.list(later);
    HashedTruth(s, rows, index.rows, now, middle, hashedAt, later);
    InheritedLonger(s, rows, index.rows, middle, hashedAt, now, later);
    if relisted.None? {
      NoCalm(s, now, later, later);
      return Err(Other), later, q;
    }
    ListedAscends(s, again);
    var after;
    ghost var secondAt;
    after, later, secondAt := StatAll(s, relisted.value.paths, later);
    HashedTruth(s, rows, index.rows, now, middle, hashedAt, later);
    InheritedLonger(s, rows, index.rows, middle, hashedAt, now, later);
    q := Pass(start, listing, firstAt, before, middle, rows, looks, again, relisted.value, secondAt, after, later);
    PassObserved(s, q, hashedAt, hashing.value.0, hashing.value.1, hashing.value.2, index.rows);
    r := Ok(Attempted(listing, hashing.value.0, hashing.value.1, hashing.value.2, Changed(before, after)));
  }

  lemma ListedAscends(s: Setting, t: nat)
    requires Lists(s) && s.list(t).Some?
    ensures Ascending(s.list(t).value.paths)
  {
    hide Ascending;
  }

  lemma NoCalm(s: Setting, now: nat, t: nat, later: nat)
    requires now <= t <= later && s.list(t).None?
    ensures forall l :: !Calm(s, l, now, later)
  {
    hide Quiet;
  }

  lemma NoCalmUnread(s: Setting, listing: Listing, rows: Rows, now: nat, start: nat, middle: nat, later: nat)
    requires now <= start <= middle <= later && s.list(start) == Some(listing)
    requires SomeUnread(s, rows, listing.paths, middle, later)
    ensures forall l :: Reads(s) ==> !Calm(s, l, now, later)
  {
    hide SomeUnread, Reads;
    forall l | Reads(s) && Calm(s, l, now, later) ensures false {
      assert l == listing;
      CalmWithin(s, l, now, later, middle, later);
      CalmReads(s, l, rows, middle, later);
    }
  }

  lemma Later(s: Setting, rows: Rows, now: nat, t: nat, later: nat)
    requires now <= t <= later
    ensures Truthful(s, rows, now) ==> Truthful(s, rows, t) && Truthful(s, rows, later)
  {
    hide Truthful;
    if Truthful(s, rows, now) {
      TruthfulLater(s, rows, now, t);
      TruthfulLater(s, rows, now, later);
    }
  }

  lemma HashedTruth(s: Setting, rows: Rows, recorded: Rows, now: nat, middle: nat, hashedAt: nat, later: nat)
    requires now <= middle <= hashedAt <= later
    requires Reads(s) && Truthful(s, rows, middle) && Trusted(s, middle, hashedAt) ==> Truthful(s, recorded, hashedAt)
    ensures Reads(s) && Truthful(s, rows, now) && Trusted(s, now, later) ==>
      Truthful(s, recorded, later) && Truthful(s, rows, middle)
  {
    hide Truthful, Trusted, Reads;
    if Reads(s) && Truthful(s, rows, now) && Trusted(s, now, later) {
      TruthfulLater(s, rows, now, middle);
      TrustedWithin(s, now, later, middle, hashedAt);
      TruthfulLater(s, recorded, hashedAt, later);
    }
  }

  lemma PassObserved(s: Setting, q: Pass, hashedAt: nat, entries: seq<FileEntry>, hashed: nat, reused: nat, rows: Rows)
    requires s.list(q.start) == Some(q.listing) && s.list(q.again) == Some(q.relisting)
    requires Stated(s, q.listing.paths, q.firstAt, q.before) && Moments(q.firstAt, q.start, q.middle)
    requires Stated(s, q.relisting.paths, q.secondAt, q.after) && Moments(q.secondAt, q.again, q.end)
    requires q.start <= q.middle <= hashedAt <= q.again <= q.end
    requires |q.looks| == |q.listing.paths| && Within(q.looks, q.middle, hashedAt)
    requires entries == Collected(s, q.listing, q.known, q.listing.paths, q.looks)
    requires hashed == Misses(s, q.known, q.listing.paths, q.looks) && hashed + reused == FileCount(entries)
    requires AllReplay(s, q.listing, q.known, rows, q.looks)
    requires NoneUnread(s, q.known, q.listing.paths, q.looks)
    ensures Observed(s, q) && entries == EntriesOf(s, q) && Reported(s, q, rows, hashed, reused)
  {
    hide Stated, AllReplay, Collected, Misses, FileCount, NoneUnread;
  }

  lemma ReportedCounts(s: Setting, q: Pass, rows: Rows, hashed: nat, reused: nat)
    requires |q.looks| == |q.listing.paths| && Reported(s, q, rows, hashed, reused)
    ensures Counted(s, q.listing, q.known, q.looks, EntriesOf(s, q), hashed, reused)
  {
    hide Counted, Misses, FileCount, AllReplay, Collected;
    CountsAre(s, q.listing, q.known, q.looks, EntriesOf(s, q), hashed, reused);
  }

  // ---- an accepted pass ----

  lemma {:induction false} CollectedPaths(s: Setting, listing: Listing, rows: Rows, paths: seq<Str>, looks: seq<Look>)
    requires |looks| == |paths|
    ensures forall e :: e in Collected(s, listing, rows, paths, looks) ==> e.path in paths
  {
    hide EntryFrom;
    if paths != [] {
      var n := |paths| - 1;
      CollectedPaths(s, listing, rows, paths[..n], looks[..n]);
      EntryNamed(s, listing, rows, looks[n], paths[n]);
    }
  }

  lemma EntryNamed(s: Setting, listing: Listing, rows: Rows, look: Look, path: Str)
    ensures forall e :: e in Listed(EntryAt(s, listing, rows, look, path)) ==> e.path == path
  {
  }

  /** The entries of a pass are in order already, one per path. */
  lemma {:induction false} CollectedAscends(s: Setting, listing: Listing, rows: Rows, paths: seq<Str>, looks: seq<Look>)
    requires |looks| == |paths| && Ascending(paths)
    ensures Sorted(ByPath, Collected(s, listing, rows, paths, looks))
    ensures DistinctPaths(Collected(s, listing, rows, paths, looks))
  {
    hide EntryFrom, EntryAt, Leq;
    if paths != [] {
      var n := |paths| - 1;
      CollectedAscends(s, listing, rows, paths[..n], looks[..n]);
      CollectedPaths(s, listing, rows, paths[..n], looks[..n]);
      EntryNamed(s, listing, rows, looks[n], paths[n]);
      forall p | p in paths[..n] ensures Leq(p, paths[n]) && p != paths[n] {
        var k :| 0 <= k < n && paths[k] == p;
      }
      hide *;
      AppendAscends(Collected(s, listing, rows, paths[..n], looks[..n]), EntryAt(s, listing, rows, looks[n], paths[n]),
                    paths[..n], paths[n]);
      CollectedLast(s, listing, rows, paths, looks);
    }
  }

  lemma CollectedLast(s: Setting, listing: Listing, rows: Rows, paths: seq<Str>, looks: seq<Look>)
    requires |looks| == |paths| > 0
    ensures var n := |paths| - 1;
      Collected(s, listing, rows, paths, looks) ==
      Collected(s, listing, rows, paths[..n], looks[..n]) + Listed(EntryAt(s, listing, rows, looks[n], paths[n]))
  {
    hide EntryAt, Listed;
  }

  lemma AppendAscends(entries: seq<FileEntry>, e: Option<FileEntry>, before: seq<Str>, path: Str)
    requires Sorted(ByPath, entries) && DistinctPaths(entries)
    requires forall x :: x in entries ==> x.path in before
    requires forall p :: p in before ==> Leq(p, path) && p != path
    requires forall x :: x in Listed(e) ==> x.path == path
    ensures Sorted(ByPath, entries + Listed(e)) && DistinctPaths(entries + Listed(e))
  {
    hide Leq;
    if e.Some? { assert e.value in Listed(e); }
  }

  /** Packaging neither reorders nor drops anything. */
  ghost predicate Packaged(s: Setting, q: Pass, m: Manifest)
    requires |q.looks| == |q.listing.paths|
  {
    m == Manifest(EntriesOf(s, q), s.hash(RootPreimage(EntriesOf(s, q))), q.listing.baseCommit,
                           q.listing.baseline, [], [])
  }

  lemma PassPackaged(s: Setting, q: Pass)
    requires |q.looks| == |q.listing.paths| && Ascending(q.listing.paths)
    ensures DedupByPath(Sort(ByPath, EntriesOf(s, q))) == EntriesOf(s, q)
  {
    hide Ascending, Collected, DistinctPaths, Sorted, DedupByPath, Sort;
    CollectedAscends(s, q.listing, q.known, q.listing.paths, q.looks);
    SortOfSorted(ByPath, EntriesOf(s, q));
    DedupOfDistinct(EntriesOf(s, q));
  }

  // ---- the counters, said of what was looked at ----

  /** The files that had no row with their size and time. */
  ghost function Rehashed(s: Setting, rows: Rows, paths: seq<Str>, looks: seq<Look>, n: nat): set<nat>
    requires n <= |paths| == |looks|
  {
    set k: nat | k < n && Synced(s, s.h(looks[k].meta), paths[k]) && WithoutRow(s, rows, looks[k].meta, paths[k])
  }

  ghost predicate WithoutRow(s: Setting, rows: Rows, at: nat, path: Str) {
    && path in s.h(at) && s.h(at)[path].Regular?
    && !(path in rows && rows[path].stamp == Stamp(|s.h(at)[path].content|, s.h(at)[path].mtime))
  }

  ghost function FilesAmong(entries: seq<FileEntry>): set<nat> {
    set i: nat | i < |entries| && entries[i].kind == 0
  }

  lemma MissedExactly(s: Setting, rows: Rows, at: nat, path: Str)
    ensures Missed(s, rows, s.h(at), path) <==> Synced(s, s.h(at), path) && WithoutRow(s, rows, at, path)
  {
    hide IsSafeRelativePath;
  }

  lemma {:induction false} MissesCount(s: Setting, rows: Rows, paths: seq<Str>, looks: seq<Look>, n: nat)
    requires n <= |paths| == |looks|
    ensures Misses(s, rows, paths[..n], looks[..n]) == |Rehashed(s, rows, paths, looks, n)|
  {
    hide Missed, Synced, WithoutRow;
    if n == 0 {
      assert Rehashed(s, rows, paths, looks, 0) == {};
    } else {
      var m := n - 1;
      MissesCount(s, rows, paths, looks, m);
      assert paths[..n][..m] == paths[..m] && looks[..n][..m] == looks[..m];
      RehashedNext(s, rows, paths, looks, m);
      hide Rehashed;
    }
  }

  lemma RehashedNext(s: Setting, rows: Rows, paths: seq<Str>, looks: seq<Look>, m: nat)
    requires m < |paths| == |looks|
    ensures |Rehashed(s, rows, paths, looks, m + 1)| == |Rehashed(s, rows, paths, looks, m)| +
      if Missed(s, rows, s.h(looks[m].meta), paths[m]) then 1 else 0
  {
    hide Missed, Synced, WithoutRow;
    MissedExactly(s, rows, looks[m].meta, paths[m]);
    assert Rehashed(s, rows, paths, looks, m + 1) ==
      Rehashed(s, rows, paths, looks, m) + (if Missed(s, rows, s.h(looks[m].meta), paths[m]) then {m} else {});
  }

  lemma {:induction false} FileCountIs(entries: seq<FileEntry>)
    ensures FileCount(entries) == |FilesAmong(entries)|
  {
    if entries == [] {
      assert FilesAmong(entries) == {};
    } else {
      var m := |entries| - 1;
      FileCountIs(entries[..m]);
      assert FilesAmong(entries) == FilesAmong(entries[..m]) + (if entries[m].kind == 0 then {m} else {});
    }
  }

  /** `hashed` files had to be read; with the `reused` ones they are the files among the entries. */
  ghost predicate Counted(s: Setting, listing: Listing, rows: Rows, looks: seq<Look>, entries: seq<FileEntry>,
                          hashed: nat, reused: nat)
    requires |looks| == |listing.paths|
  {
    && hashed == |Rehashed(s, rows, listing.paths, looks, |looks|)|
    && hashed + reused == |FilesAmong(entries)|
  }

  lemma CountsAre(s: Setting, listing: Listing, rows: Rows, looks: seq<Look>, entries: seq<FileEntry>, hashed: nat,
                  reused: nat)
    requires |looks| == |listing.paths| && hashed == Misses(s, rows, listing.paths, looks)
    requires hashed + reused == FileCount(entries)
    ensures Counted(s, listing, rows, looks, entries, hashed, reused)
  {
    hide Misses, Rehashed, FileCount, FilesAmong;
    MissesCount(s, rows, listing.paths, looks, |looks|);
    FileCountIs(entries);
    assert listing.paths[..|looks|] == listing.paths && looks[..|looks|] == looks;
  }

  lemma CollectedEntriesTold(s: Setting, listing: Listing, rows: Rows, looks: seq<Look>)
    requires |looks| == |listing.paths| && Ascending(listing.paths) && NoneUnread(s, rows, listing.paths, looks)
    ensures EntriesTold(Collected(s, listing, rows, listing.paths, looks), s, listing, rows, looks)
  {
    hide Collected, ToldIn, ToldSomewhere, Synced, Ascending, NoneUnread, Leq;
    CollectedIsTold(s, listing, rows, looks, |looks|);
    assert listing.paths[..|looks|] == listing.paths && looks[..|looks|] == looks;
    CollectedAscends(s, listing, rows, listing.paths, looks);
  }

  /** What a pass saw of a file is what its entry says. */
  lemma PassEntriesTold(s: Setting, q: Pass)
    requires Observed(s, q) && Ascending(q.listing.paths)
    ensures EntriesTold(EntriesOf(s, q), s, q.listing, q.known, q.looks)
  {
    hide EntriesTold, NoneUnread, Collected, Stated, Ascending;
    CollectedEntriesTold(s, q.listing, q.known, q.looks);
  }

  function PathsOf(entries: seq<FileEntry>): set<Str> {
    set e | e in entries :: e.path
  }

  /** Dropping the rows of paths without an entry forgets nothing a rescan asks for. */
  lemma RetainedReplays(s: Setting, q: Pass, rows: Rows)
    requires |q.looks| == |q.listing.paths| && AllReplay(s, q.listing, q.known, rows, q.looks)
    ensures AllReplay(s, q.listing, q.known, Retained(rows, PathsOf(EntriesOf(s, q))), q.looks)
  {
    var live := PathsOf(EntriesOf(s, q));
    hide PathsOf, EntriesOf;
    forall k | 0 <= k < |q.looks|
      ensures Replays(s, q.listing, q.known, Retained(rows, live), q.looks[k], q.listing.paths[k])
    {
      assert Replays(s, q.listing, q.known, rows, q.looks[k], q.listing.paths[k]);
      var e := EntryAt(s, q.listing, q.known, q.looks[k], q.listing.paths[k]);
      if e.Some? { LiveEntry(s, q, k); }
      hide AllReplay, IsSafeRelativePath;
    }
  }

  lemma LiveEntry(s: Setting, q: Pass, k: nat)
    requires |q.looks| == |q.listing.paths| && k < |q.looks|
    requires EntryAt(s, q.listing, q.known, q.looks[k], q.listing.paths[k]).Some?
    ensures q.listing.paths[k] in PathsOf(EntriesOf(s, q))
  {
    CollectedHas(s, q.listing, q.known, q.listing.paths, q.looks, k);
    EntryNamed(s, q.listing, q.known, q.looks[k], q.listing.paths[k]);
  }

  // ---- the loop ----

  datatype Scan = Scan(manifest: Manifest, included: set<Str>, hashed: nat, reused: nat, attempts: nat)

  /** The entries are those of hashing every listed file at one moment, mode bits aside. */
  ghost predicate Whole(s: Setting, q: Pass)
    requires |q.looks| == |q.listing.paths|
  {
    Stripped(EntriesOf(s, q)) == Stripped(Full(s, q.listing, q.listing.paths, s.h(q.middle)))
  }

  /** They are those of hashing at one moment every file the sweeps saw. */
  ghost predicate Snapshot(s: Setting, q: Pass)
    requires |q.looks| == |q.listing.paths|
  {
    Stripped(EntriesOf(s, q)) == Stripped(Full(s, q.listing, q.listing.paths, SweptTree(s, q)))
  }

  lemma PassTimes(s: Setting, q: Pass)
    requires Observed(s, q)
    ensures q.start <= q.middle <= q.end && |q.looks| == |q.listing.paths|
  {
  }

  /** No row an earlier attempt recorded answers for a listed file with the hash of another content:
      the file was edited between its stat and its reading, and is back as it was. */
  ghost predicate NoTornHit(s: Setting, q: Pass, first: Rows, from: nat) {
    forall p, look: Look ::
      && p in q.listing.paths && Recent(first, q.known, p) && Visible(s, s.h(q.middle), p)
      && Fits(s.h(q.middle), p, q.known[p]) && from <= look.meta && look.data <= q.start
      && Witnessed(s, p, q.known[p], look)
      ==> Untorn(s, p, q.known[p], look)
  }

  lemma TornHitIsWrong(s: Setting, q: Pass, p: Str, look: Look)
    requires StampTells(s) && p in q.known && Visible(s, s.h(q.middle), p) && Fits(s.h(q.middle), p, q.known[p])
    requires Witnessed(s, p, q.known[p], look)
    ensures HitRight(s, q, p) <==> Untorn(s, p, q.known[p], look)
  {
    hide IsSafeRelativePath;
    assert Tells(s.h, p, look.meta, q.middle);
  }

  /** A row from before that answers for a listed file is right. */
  lemma FirstRowsHitRight(s: Setting, q: Pass, first: Rows, from: nat, p: Str)
    requires Truthful(s, first, from) && from <= q.middle && !Recent(first, q.known, p)
    ensures HitRight(s, q, p)
  {
    hide IsSafeRelativePath;
    if p in q.known && !s.excluded(p) { assert RowTrue(s, p, first[p], from); }
  }

  lemma HitsRightExactly(s: Setting, q: Pass, first: Rows, from: nat)
    requires StampTells(s) && Truthful(s, first, from) && from <= q.middle &&
      Inherited(s, first, q.known, from, q.start)
    ensures (forall p :: p in q.listing.paths ==> HitRight(s, q, p)) <==> NoTornHit(s, q, first, from)
  {
    hide StampTells, Truthful, Witnessed, Untorn, HitRight, Visible, Fits;
    forall p, look: Look | Recent(first, q.known, p) && Visible(s, s.h(q.middle), p)
        && Fits(s.h(q.middle), p, q.known[p]) && Witnessed(s, p, q.known[p], look)
      ensures HitRight(s, q, p) <==> Untorn(s, p, q.known[p], look)
    {
      TornHitIsWrong(s, q, p, look);
    }
    if NoTornHit(s, q, first, from) {
      forall p | p in q.listing.paths ensures HitRight(s, q, p) {
        if !Recent(first, q.known, p) {
          FirstRowsHitRight(s, q, first, from, p);
        } else if Visible(s, s.h(q.middle), p) && Fits(s.h(q.middle), p, q.known[p]) {
          assert WitnessedWithin(s, p, q.known[p], from, q.start);
        } else {
          UnhitIsRight(s, q, p);
        }
      }
    }
  }

  lemma UnhitIsRight(s: Setting, q: Pass, p: Str)
    requires p in q.known && !(Visible(s, s.h(q.middle), p) && Fits(s.h(q.middle), p, q.known[p]))
    ensures HitRight(s, q, p)
  {
    hide IsSafeRelativePath;
  }

  lemma TruthfulOnlyHarmless(s: Setting, first: Rows, rows: Rows, now: nat, later: nat)
    requires now <= later && Inherited(s, first, rows, now, later)
    ensures Truthful(s, first, now) && StampTells(s) ==>
      (Truthful(s, rows, later) <==> RecentHarmless(s, first, rows, now, later))
  {
    hide *;
    if Truthful(s, first, now) && StampTells(s) { TruthfulExactly(s, first, rows, now, later); }
  }

  /** So an accepted pass in which nothing is edited is whole exactly when no earlier attempt left a
      torn row that answers in it. */
  lemma QuietAcceptedExactly(s: Setting, q: Pass, first: Rows, now: nat)
    requires Observed(s, q) && now <= q.start && Inherited(s, first, q.known, now, q.start)
    ensures Reads(s) && Truthful(s, first, now) && StampTells(s) && Quiet(s, q.start, q.end) ==>
      (Whole(s, q) <==> NoTornHit(s, q, first, now))
  {
    PassTimes(s, q);
    hide Observed, Inherited, Reads, Truthful, StampTells, Quiet, HitRight, NoTornHit, EntriesOf, Full, Stripped;
    if Reads(s) && Truthful(s, first, now) && StampTells(s) && Quiet(s, q.start, q.end) {
      QuietPassExactly(s, q);
      HitsRightExactly(s, q, first, now);
    }
  }

  lemma TurnTruth(s: Setting, rows: Rows, had: Rows, got: Rows, q: Pass, ok: bool, now: nat, turn: nat, later: nat)
    requires now <= turn <= later
    requires Reads(s) && Truthful(s, rows, now) && Trusted(s, now, turn) ==> Truthful(s, had, turn)
    requires Reads(s) && Truthful(s, had, turn) && Trusted(s, turn, later) ==>
      Truthful(s, got, later) && (ok ==> Truthful(s, q.known, q.middle))
    ensures Reads(s) && Truthful(s, rows, now) && Trusted(s, now, later) ==>
      Truthful(s, got, later) && (ok ==> Truthful(s, q.known, q.middle))
  {
    hide Truthful, Trusted, Reads;
    if Trusted(s, now, later) {
      TrustedWithin(s, now, later, now, turn);
      TrustedWithin(s, now, later, turn, later);
    }
  }

  lemma TurnCalm(s: Setting, now: nat, turn: nat, later: nat)
    requires now <= turn <= later
    ensures forall l :: Calm(s, l, now, later) ==> Calm(s, l, now, turn) && Calm(s, l, turn, later)
  {
    hide Calm;
    forall l | Calm(s, l, now, later) ensures Calm(s, l, now, turn) && Calm(s, l, turn, later) {
      CalmWithin(s, l, now, later, now, turn);
      CalmWithin(s, l, now, later, turn, later);
    }
  }

  lemma NotCalm(s: Setting, q: Pass, now: nat, later: nat)
    requires Observed(s, q) && now <= q.start && q.end <= later && Changed(q.before, q.after) != {}
    ensures forall l :: !Calm(s, l, now, later)
  {
    hide Changed, Calm;
    forall l ensures !Calm(s, l, now, later) {
      if Calm(s, l, now, later) {
        CalmWithin(s, l, now, later, q.start, q.end);
        CalmSettles(s, l, q);
      }
    }
  }

  lemma SameSweeps(q: Pass)
    requires Changed(q.before, q.after) == {}
    ensures Settled(q)
  {
    hide Get;
    forall p ensures Get(q.before, p) == Get(q.after, p) {
      assert p !in Changed(q.before, q.after);
    }
  }

  lemma RetainedReports(s: Setting, q: Pass, rows: Rows, live: set<Str>, hashed: nat, reused: nat)
    requires Reported(s, q, rows, hashed, reused)
    requires live == set e | e in EntriesOf(s, q) :: e.path
    ensures Reported(s, q, Retained(rows, live), hashed, reused)
  {
    hide AllReplay, EntriesOf, Misses, FileCount;
    RetainedReplays(s, q, rows);
  }

  lemma AcceptedIsWhole(s: Setting, q: Pass, rows: Rows, now: nat, later: nat)
    requires Observed(s, q) && Settled(q) && now <= q.start && q.end <= later
    requires Reads(s) && Truthful(s, rows, now) && Trusted(s, now, later) ==> Truthful(s, q.known, q.middle)
    ensures Reads(s) && Truthful(s, rows, now) && NeverReturns(s) ==>
      (Snapshot(s, q) <==> !HasPhantom(s, q)) && (AbsentStays(s, q) ==> Whole(s, q))
    ensures Reads(s) && Truthful(s, rows, now) && StampTells(s) && Quiet(s, now, later) ==> Whole(s, q)
  {
    hide Reads, Truthful, NeverReturns, AbsentStays, StampTells, Quiet, Settled, EntriesOf, Full, Stripped, Stated,
      Moments, Within, HasPhantom, SweptTree;
    if Reads(s) && Truthful(s, rows, now) && NeverReturns(s) {
      NeverReturnsWithin(s, q.start, q.end);
      AcceptedPassExactly(s, q);
      if AbsentStays(s, q) { AcceptedPassIsWhole(s, q); }
    }
    if Reads(s) && Truthful(s, rows, now) && StampTells(s) && Quiet(s, now, later) {
      QuietWithin(s, now, later, q.start, q.end);
      QuietPassIsWhole(s, q);
    }
  }

  /** `scan_with`. Nothing is asked of the history: what the result is worth under which edits is
      said by each clause. */
  method ScanWith(s: Setting, index: StatIndex, now: nat)
    returns (r: Result<Scan, ScanError>, later: nat, ghost q: Pass)
    requires Lists(s)
    modifies index
    ensures later >= now
    // what an accepted scan is
    ensures r.Ok? ==> Observed(s, q) && Settled(q) && now <= q.start && q.end <= later
    ensures r.Ok? ==> Packaged(s, q, r.value.manifest) && !ClashAmong(s.lower, r.value.manifest.entries)
    ensures r.Ok? ==> EntriesTold(r.value.manifest.entries, s, q.listing, q.known, q.looks)
    ensures r.Ok? ==> Counted(s, q.listing, q.known, q.looks, r.value.manifest.entries, r.value.hashed, r.value.reused)
    ensures r.Ok? ==> r.value.included == q.listing.included * PathsOf(r.value.manifest.entries)
    ensures r.Ok? ==> 1 <= r.value.attempts <= MAX_SCAN_ATTEMPTS
    ensures r.Ok? ==> Reported(s, q, index.rows, r.value.hashed, r.value.reused)
    ensures r.Ok? && r.value.attempts == 1 ==> q.known == old(index.rows)
    // what it is worth
    ensures Reads(s) && Truthful(s, old(index.rows), now) && Trusted(s, now, later) ==>
      Truthful(s, index.rows, later) && (r.Ok? ==> Truthful(s, q.known, q.middle))
    ensures r.Ok? && Reads(s) && Truthful(s, old(index.rows), now) && NeverReturns(s) ==>
      (Snapshot(s, q) <==> !HasPhantom(s, q)) && (AbsentStays(s, q) ==> Whole(s, q))
    ensures r.Ok? && Reads(s) && Truthful(s, old(index.rows), now) && StampTells(s) && Quiet(s, now, later) ==>
      Whole(s, q)
    // what earlier attempts leave behind
    ensures Inherited(s, old(index.rows), index.rows, now, later)
    ensures Truthful(s, old(index.rows), now) && StampTells(s) ==>
      (Truthful(s, index.rows, later) <==> RecentHarmless(s, old(index.rows), index.rows, now, later))
    ensures r.Ok? ==> Inherited(s, old(index.rows), q.known, now, q.start)
    ensures r.Ok? && Reads(s) && Truthful(s, old(index.rows), now) && StampTells(s) && Quiet(s, q.start, q.end) ==>
      (Whole(s, q) <==> NoTornHit(s, q, old(index.rows), now))
    // what a refused one means
    ensures r.Err? && r.error.Unstable? ==> r.error.attempts == MAX_SCAN_ATTEMPTS && r.error.changed != {}
    ensures r.Err? && r.error.CaseConflict? ==> Observed(s, q) && Settled(q) && now <= q.start && q.end <= later
    ensures r.Err? && r.error.CaseConflict? ==> ClashesIn(s.lower, EntriesOf(s, q), (r.error.a, r.error.b))
    ensures r.Err? && r.error.CaseConflict? && (exists l :: Calm(s, l, now, later)) ==> q.known == old(index.rows)
    ensures Reads(s) && (exists l :: Calm(s, l, now, later)) ==>
      if r.Ok? then r.value.attempts == 1 else r.error.CaseConflict?
  {
    hide Inherited, NoTornHit, RecentHarmless, EntriesTold, Counted;
    hide Observed, Settled, ClashAmong, Truthful, Trusted, Reads, NeverReturns, AbsentStays, StampTells, Quiet,
      Whole, Snapshot, HasPhantom, Reported, ClashesIn, Calm, Collected, DedupByPath, Sort, Retained, Changed,
      Serialized, Sorted, Stripped, Full;
    later := now;
    var attempts := 0;
    ghost var rows := index.rows;
    InheritedNothing(s, rows, now, now);
    while true
      invariant attempts < MAX_SCAN_ATTEMPTS && later >= now
      invariant attempts == 0 ==> index.rows == rows
      invariant Reads(s) && Truthful(s, rows, now) && Trusted(s, now, later) ==> Truthful(s, index.rows, later)
      invariant Inherited(s, rows, index.rows, now, later)
      invariant attempts > 0 ==> forall l :: !Calm(s, l, now, later)
      decreases MAX_SCAN_ATTEMPTS - attempts
    {
      attempts := attempts + 1;
      ghost var turn, had := later, index.rows;
      var one;
      one, later, q := Attempt(s, index, later);
      TurnTruth(s, rows, had, index.rows, q, one.Ok?, now, turn, later);
      InheritedOnwards(s, rows, had, index.rows, now, turn, later);
      TurnCalm(s, now, turn, later);
      TruthfulOnlyHarmless(s, rows, index.rows, now, later);
      if one.Err? {
        return Err(one.error), later, q;
      }
      var a := one.value;
      if a.changed != {} {
        NotCalm(s, q, now, later);
        if attempts >= MAX_SCAN_ATTEMPTS {
          return Err(Unstable(attempts, a.changed)), later, q;
        }
        continue;
      }
      SameSweeps(q);
      PassTimes(s, q);
      var conflicts := FindCaseConflicts(s.lower, a.entries);
      if conflicts != [] {
        return Err(CaseConflict(conflicts[0].0, conflicts[0].1)), later, q;
      }
      PassPackaged(s, q);
      PassEntriesTold(s, q);
      ReportedCounts(s, q, index.rows, a.hashed, a.reused);
      var manifest := BuildMulti(s.hash, a.entries, a.listing.baseCommit, a.listing.baseline, [], []);
      var live := set e | e in manifest.entries :: e.path;
      ghost var recorded := index.rows;
      var _ := index.Retain(live);
      RetainedReports(s, q, recorded, live, a.hashed, a.reused);
      if Truthful(s, recorded, later) { TruthfulRetained(s, recorded, live, later); }
      InheritedRetained(s, rows, recorded, live, now, later);
      InheritedLonger(s, rows, had, now, turn, now, q.start);
      AcceptedIsWhole(s, q, rows, now, later);
      QuietAcceptedExactly(s, q, rows, now);
      TruthfulOnlyHarmless(s, rows, index.rows, now, later);
      return Ok(Scan(manifest, a.listing.included * live, a.hashed, a.reused, attempts)), later, q;
    }
  }

  // ---- scanning again ----

  /** After an accepted pass every swept file is known as it was at that one moment. */
  lemma KnownAtTheMoment(s: Setting, q: Pass, rows: Rows, k: nat)
    requires Observed(s, q) && Settled(q) && NoReturn(s, q.start, q.end)
    requires AllReplay(s, q.listing, q.known, rows, q.looks)
    requires k < |q.listing.paths| && q.listing.paths[k] in q.before
    ensures !Missed(s, rows, s.h(q.middle), q.listing.paths[k])
  {
    SweptPathHeld(s, q, k);
    assert Replays(s, q.listing, q.known, rows, q.looks[k], q.listing.paths[k]);
    hide Observed, Settled, NoReturn, AllReplay, IsSafeRelativePath;
  }

  /** A path that has not changed since the look the index answers for is not hashed again, and
      gives the same entry. */
  lemma UneditedReplays(s: Setting, listing: Listing, known: Rows, rows: Rows, look: Look, next: Look, path: Str)
    requires Replays(s, listing, known, rows, look, path)
    requires s.excluded(path) || SameContent(s.h(look.meta), s.h(next.meta), path)
    requires s.excluded(path) || SameContent(s.h(look.data), s.h(next.data), path)
    ensures !Missed(s, rows, s.h(next.meta), path)
    ensures Blank(EntryAt(s, listing, rows, next, path)) == Blank(EntryAt(s, listing, known, look, path))
  {
    hide IsSafeRelativePath;
  }

  lemma {:induction false} NothingMissed(s: Setting, rows: Rows, paths: seq<Str>, looks: seq<Look>)
    requires |looks| == |paths|
    requires forall k :: 0 <= k < |paths| ==> !Missed(s, rows, s.h(looks[k].meta), paths[k])
    ensures Misses(s, rows, paths, looks) == 0
  {
    if paths != [] { NothingMissed(s, rows, paths[..|paths| - 1], looks[..|looks| - 1]); }
  }

  lemma {:induction false} SameCollected(s: Setting, listing: Listing, rows: Rows, known: Rows, paths: seq<Str>,
                                         looks: seq<Look>, next: seq<Look>)
    requires |looks| == |paths| == |next|
    requires forall k :: 0 <= k < |paths| ==>
      Blank(EntryAt(s, listing, rows, next[k], paths[k])) == Blank(EntryAt(s, listing, known, looks[k], paths[k]))
    ensures Stripped(Collected(s, listing, rows, paths, next)) == Stripped(Collected(s, listing, known, paths, looks))
  {
    hide EntryAt, Blank, Listed;
    if paths != [] {
      var n := |paths| - 1;
      SameCollected(s, listing, rows, known, paths[..n], looks[..n], next[..n]);
      StrippedConcat(Collected(s, listing, rows, paths[..n], next[..n]), EntryAt(s, listing, rows, next[n], paths[n]));
      StrippedConcat(Collected(s, listing, known, paths[..n], looks[..n]),
        EntryAt(s, listing, known, looks[n], paths[n]));
    }
  }

  /** A pass over an unedited tree, with the index the last pass left, hashes nothing and has the
      entries of the last pass. */
  lemma UneditedTreeHashesNothing(s: Setting, q: Pass, next: Pass)
    requires Observed(s, q) && Observed(s, next) && q.end <= next.start && next.listing == q.listing
    requires AllReplay(s, q.listing, q.known, next.known, q.looks) && Quiet(s, q.middle, next.end)
    ensures Misses(s, next.known, next.listing.paths, next.looks) == 0
    ensures Stripped(EntriesOf(s, next)) == Stripped(EntriesOf(s, q))
  {
    var paths := q.listing.paths;
    forall k | 0 <= k < |paths|
      ensures !Missed(s, next.known, s.h(next.looks[k].meta), paths[k])
      ensures Blank(EntryAt(s, q.listing, next.known, next.looks[k], paths[k])) ==
        Blank(EntryAt(s, q.listing, q.known, q.looks[k], paths[k]))
    {
      var a, b := q.looks[k].meta, next.looks[k].meta;
      var c, d := q.looks[k].data, next.looks[k].data;
      assert q.middle <= a <= b <= next.end && q.middle <= c <= d <= next.end;
      if !s.excluded(paths[k]) {
        assert SameContent(s.h(q.middle), s.h(a), paths[k]) && SameContent(s.h(q.middle), s.h(b), paths[k]);
        assert SameContent(s.h(q.middle), s.h(c), paths[k]) && SameContent(s.h(q.middle), s.h(d), paths[k]);
      }
      assert Replays(s, q.listing, q.known, next.known, q.looks[k], paths[k]);
      hide Observed, AllReplay, Replays, Quiet, EntryAt, Blank, Missed;
      UneditedReplays(s, q.listing, q.known, next.known, q.looks[k], next.looks[k], paths[k]);
    }
    hide AllReplay, Quiet, EntryAt, Blank, Missed;
    NothingMissed(s, next.known, paths, next.looks);
    SameCollected(s, q.listing, next.known, q.known, paths, q.looks, next.looks);
  }

  lemma SamePaths(a: seq<FileEntry>, b: seq<FileEntry>, lower: Str -> Str)
    requires Stripped(a) == Stripped(b) && ClashAmong(lower, b)
    ensures ClashAmong(lower, a)
  {
    var i, j :| 0 <= i < j < |b| && Clash(lower, b[i].path, b[j].path);
    assert |Stripped(a)| == |a| && |Stripped(b)| == |b|;
    assert Stripped(a)[i].path == a[i].path && Stripped(b)[i].path == b[i].path;
    assert Stripped(a)[j].path == a[j].path && Stripped(b)[j].path == b[j].path;
  }

  lemma SecondPass(s: Setting, q: Pass, next: Pass, rows: Rows, hashed: nat, reused: nat, later: nat)
    requires Observed(s, q) && Observed(s, next) && q.end <= next.start && next.end <= later
    requires Reported(s, q, rows, hashed, reused) && next.known == rows && Calm(s, q.listing, q.middle, later)
    ensures Misses(s, next.known, next.listing.paths, next.looks) == 0
    ensures Stripped(EntriesOf(s, next)) == Stripped(EntriesOf(s, q))
  {
    hide Stated, Moments, Within, AllReplay, Misses, FileCount, EntriesOf, Stripped, Quiet;
    QuietWithin(s, q.middle, later, q.middle, next.end);
    UneditedTreeHashesNothing(s, q, next);
  }

  lemma ClashFound(lower: Str -> Str, entries: seq<FileEntry>, pair: (Str, Str))
    requires ClashesIn(lower, entries, pair)
    ensures ClashAmong(lower, entries)
  {
  }

  /** Two scans in a row. If nothing is edited from the hashing of the first to the end of the
      second, the second succeeds at once, hashes nothing and lists the same files. */
  method ScanTwice(s: Setting, index: StatIndex, now: nat)
    returns (first: Result<Scan, ScanError>, second: Result<Scan, ScanError>, later: nat, ghost q: Pass)
    requires Lists(s)
    modifies index
    ensures first.Ok? ==> Observed(s, q) && now <= q.start && q.end <= later
    ensures first.Ok? && Reads(s) && Calm(s, q.listing, q.middle, later) ==>
      && second.Ok? && second.value.attempts == 1 && second.value.hashed == 0
      && second.value.reused == FileCount(second.value.manifest.entries)
      && Stripped(second.value.manifest.entries) == Stripped(first.value.manifest.entries)
  {
    hide Observed, Settled, ClashAmong, Truthful, Trusted, Reads, NeverReturns, AbsentStays, StampTells, Quiet,
      Whole, Snapshot, HasPhantom, ClashesIn, Calm, Collected, AllReplay, Misses, FileCount, Serialized, Stripped, Full;
    first, later, q := ScanWith(s, index, now);
    second := first;
    if first.Ok? {
      ghost var turn, rows := later, index.rows;
      ghost var next;
      second, later, next := ScanWith(s, index, later);
      if Reads(s) && Calm(s, q.listing, q.middle, later) {
        PassTimes(s, q);
        CalmWithin(s, q.listing, q.middle, later, turn, later);
        assert next.known == rows;
        PassTimes(s, next);
        SecondPass(s, q, next, rows, first.value.hashed, first.value.reused, later);
        if second.Err? {
          ClashFound(s.lower, EntriesOf(s, next), (second.error.a, second.error.b));
          SamePaths(EntriesOf(s, q), EntriesOf(s, next), s.lower);
        }
      }
    }
  }
}
