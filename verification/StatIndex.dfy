/** The per-worktree stat index (crates/rc-agent/src/index.rs). */
module StatIndexes {
  import opened Text

  /** Size and modification time: what tells the index that a file is the same one. */
  datatype Stamp = Stamp(size: nat, mtime: int)

  datatype Stat = Stat(stamp: Stamp, hash: Str)

  type Rows = map<Str, Stat>

  predicate Hit(rows: Rows, path: Str, stamp: Stamp) {
    path in rows && rows[path].stamp == stamp
  }

  /** Inserted in order; a later row for a path replaces an earlier one. */
  function Recorded(rows: Rows, entries: seq<(Str, Stat)>): Rows {
    if entries == [] then rows
    else Recorded(rows, entries[..|entries| - 1])[entries[|entries| - 1].0 := entries[|entries| - 1].1]
  }

  function Retained(rows: Rows, live: set<Str>): (r: Rows)
    ensures forall p :: p in r <==> p in rows && p in live
    ensures forall p :: p in r ==> r[p] == rows[p]
  {
    map p | p in rows && p in live :: rows[p]
  }

  class StatIndex {
    var rows: Rows

    constructor ()
      ensures rows == map[]
    {
      rows := map[];
    }

    /** The recorded hash, if size and time both still agree. */
    method Lookup(path: Str, stamp: Stamp) returns (r: Option<Str>)
      ensures r == if Hit(rows, path, stamp) then Some(rows[path].hash) else None
    {
      if path in rows {
        var s := rows[path];
        if s.stamp.size == stamp.size && s.stamp.mtime == stamp.mtime {
          return Some(s.hash);
        }
      }
      return None;
    }

    method RecordAll(entries: seq<(Str, Stat)>)
      modifies this
      ensures rows == Recorded(old(rows), entries)
    {
      for i := 0 to |entries|
        invariant rows == Recorded(old(rows), entries[..i])
      {
        assert entries[..i + 1][..i] == entries[..i];
        rows := rows[entries[i].0 := entries[i].1];
      }
      assert entries[..|entries|] == entries;
    }

    /** Drop the rows of paths that are gone. */
    method Retain(live: set<Str>) returns (dropped: nat)
      modifies this
      ensures rows == Retained(old(rows), live)
      ensures dropped == |old(rows)| - |rows|
    {
      var stale := set p | p in rows && p !in live;
      StaleCount(rows, live, stale);
      rows := rows - stale;
      assert rows == Retained(old(rows), live);
      dropped := |stale|;
    }
  }

  lemma StaleCount(rows: Rows, live: set<Str>, stale: set<Str>)
    requires stale == set p | p in rows && p !in live
    ensures |Retained(rows, live)| == |rows| - |stale|
  {
    var kept := Retained(rows, live);
    assert kept.Keys == rows.Keys - stale;
    assert |kept| == |kept.Keys| && |rows| == |rows.Keys|;
  }

  /** What a recorded path holds comes from its last entry; other rows stay. */
  lemma {:induction false} RecordedRow(rows: Rows, entries: seq<(Str, Stat)>, path: Str)
    ensures var r := Recorded(rows, entries);
      path in r ==> (path in rows && r[path] == rows[path]) || (path, r[path]) in entries
    ensures path in rows ==> path in Recorded(rows, entries)
  {
    if entries != [] {
      RecordedRow(rows, entries[..|entries| - 1], path);
    }
  }

  /** With one entry per path, every entry is found again. */
  lemma {:induction false} RecordedEntry(rows: Rows, entries: seq<(Str, Stat)>, i: nat)
    requires i < |entries| && forall j, k :: 0 <= j < k < |entries| ==> entries[j].0 != entries[k].0
    ensures entries[i].0 in Recorded(rows, entries) && Recorded(rows, entries)[entries[i].0] == entries[i].1
  {
    var n := |entries| - 1;
    if i < n {
      RecordedEntry(rows, entries[..n], i);
    }
  }

  lemma {:induction false} UnrecordedRow(rows: Rows, entries: seq<(Str, Stat)>, path: Str)
    requires path in rows && forall k :: 0 <= k < |entries| ==> entries[k].0 != path
    ensures path in Recorded(rows, entries) && Recorded(rows, entries)[path] == rows[path]
  {
    if entries != [] {
      UnrecordedRow(rows, entries[..|entries| - 1], path);
    }
  }
}
