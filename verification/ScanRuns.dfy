/** Scans one after the other, and what an earlier one leaves to a later one
    (crates/rc-agent/src/scanner.rs, crates/rc-agent/src/index.rs). */
module ScanRuns {
  import opened Text
  import opened Sorting
  import opened Manifest
  import opened StatIndexes
  import opened Worktree
  import opened Passes
  import opened Scanner

  // ---- a run of scans, from an empty index ----

  /** When one scan of a run began and ended. */
  datatype Span = Span(from: nat, to: nat)

  ghost predicate InTurn(spans: seq<Span>, now: nat, later: nat) {
    && (forall i :: 0 <= i < |spans| ==> now <= spans[i].from <= spans[i].to <= later)
    && (forall i, j :: 0 <= i < j < |spans| ==> spans[i].to <= spans[j].from)
  }

  /** No scan of the run was disturbed; between them anything may happen. */
  ghost predicate Undisturbed(s: Setting, spans: seq<Span>) {
    forall i :: 0 <= i < |spans| ==> Quiet(s, spans[i].from, spans[i].to)
  }

  /** What one scan of a run is worth. */
  ghost predicate Worth(s: Setting, first: nat, q: Pass)
    requires |q.looks| == |q.listing.paths|
  {
    && (Reads(s) && NeverReturns(s) ==> (Snapshot(s, q) <==> !HasPhantom(s, q)) && (AbsentStays(s, q) ==> Whole(s, q)))
    && (Reads(s) && StampTells(s) && Quiet(s, q.start, q.end) ==> (Whole(s, q) <==> NoTornHit(s, q, map[], first)))
  }

  ghost predicate AllWorth(s: Setting, first: nat, results: seq<Result<Scan, ScanError>>, passes: seq<Pass>,
                           spans: seq<Span>)
    requires |results| == |passes| == |spans|
  {
    forall i :: 0 <= i < |results| && results[i].Ok? ==>
      && Observed(s, passes[i]) && Settled(passes[i]) && Packaged(s, passes[i], results[i].value.manifest)
      && spans[i].from <= passes[i].start && passes[i].end <= spans[i].to
      && Worth(s, first, passes[i])
  }

  ghost predicate AllWhole(s: Setting, results: seq<Result<Scan, ScanError>>, passes: seq<Pass>)
    requires |results| == |passes|
  {
    forall i :: 0 <= i < |results| && results[i].Ok? ==>
      |passes[i].looks| == |passes[i].listing.paths| && Whole(s, passes[i])
  }

  lemma InTurnNext(spans: seq<Span>, now: nat, turn: nat, from: nat, later: nat)
    requires InTurn(spans, now, turn) && now <= turn <= from <= later
    ensures InTurn(spans + [Span(from, later)], now, later)
  {
  }

  lemma UndisturbedBefore(s: Setting, spans: seq<Span>, span: Span)
    requires Undisturbed(s, spans + [span])
    ensures Undisturbed(s, spans) && Quiet(s, span.from, span.to)
  {
    hide Quiet;
    assert (spans + [span])[|spans|] == span;
    assert forall i :: 0 <= i < |spans| ==> (spans + [span])[i] == spans[i];
  }

  lemma WorthNow(s: Setting, q: Pass, had: Rows, first: nat, turn: nat)
    requires first <= turn <= q.start && Observed(s, q) && Settled(q)
    requires Inherited(s, map[], had, first, turn) && Inherited(s, had, q.known, turn, q.start)
    requires |q.looks| == |q.listing.paths|
    requires Reads(s) && NeverReturns(s) ==>
      (Snapshot(s, q) <==> !HasPhantom(s, q)) && (AbsentStays(s, q) ==> Whole(s, q))
    ensures Worth(s, first, q)
  {
    NoRowsTruthful(s, first);
    hide *;
    InheritedOnwards(s, map[], had, q.known, first, turn, q.start);
    QuietAcceptedExactly(s, q, map[], first);
    WorthOf(s, first, q);
  }

  lemma WorthOf(s: Setting, first: nat, q: Pass)
    requires |q.looks| == |q.listing.paths|
    requires Reads(s) && NeverReturns(s) ==>
      (Snapshot(s, q) <==> !HasPhantom(s, q)) && (AbsentStays(s, q) ==> Whole(s, q))
    requires Reads(s) && StampTells(s) && Quiet(s, q.start, q.end) ==> (Whole(s, q) <==> NoTornHit(s, q, map[], first))
    ensures Worth(s, first, q)
  {
    hide Reads, NeverReturns, StampTells, Quiet, Snapshot, HasPhantom, AbsentStays, Whole, NoTornHit;
  }

  lemma NoRowsTruthful(s: Setting, now: nat)
    ensures Truthful(s, map[], now)
  {
  }

  lemma AllWorthNext(s: Setting, first: nat, results: seq<Result<Scan, ScanError>>, passes: seq<Pass>,
                     spans: seq<Span>, r: Result<Scan, ScanError>, q: Pass, span: Span)
    requires |results| == |passes| == |spans| && AllWorth(s, first, results, passes, spans)
    requires r.Ok? ==> Observed(s, q) && Settled(q) && Packaged(s, q, r.value.manifest)
    requires r.Ok? ==> span.from <= q.start && q.end <= span.to && Worth(s, first, q)
    ensures AllWorth(s, first, results + [r], passes + [q], spans + [span])
  {
    hide Observed, Settled, Packaged, Worth;
    var n := |results|;
    assert (results + [r])[n] == r && (passes + [q])[n] == q && (spans + [span])[n] == span;
  }

  lemma AllWholeNext(s: Setting, results: seq<Result<Scan, ScanError>>, passes: seq<Pass>,
                     r: Result<Scan, ScanError>, q: Pass)
    requires |results| == |passes| && AllWhole(s, results, passes)
    requires r.Ok? ==> |q.looks| == |q.listing.paths| && Whole(s, q)
    ensures AllWhole(s, results + [r], passes + [q])
  {
    hide Whole;
  }

  /** Any number of scans with anything between them, starting without an index. Where no stamp returns
      after a change each accepted one is a snapshot but for phantoms. Where stamps that return bring
      their content back, each one nobody edits in is whole exactly when no attempt of the whole run
      left a torn row that answers in it; and all are, if no attempt was disturbed. */
  method ScanMany(s: Setting, times: nat, now: nat)
    returns (results: seq<Result<Scan, ScanError>>, later: nat, ghost passes: seq<Pass>, ghost spans: seq<Span>)
    requires Lists(s)
    ensures |results| == |passes| == |spans| == times && InTurn(spans, now, later)
    ensures AllWorth(s, now, results, passes, spans)
    ensures Reads(s) && StampTells(s) && Undisturbed(s, spans) ==> AllWhole(s, results, passes)
  {
    hide Observed, Settled, Packaged, ClashAmong, Truthful, Trusted, Reads, NeverReturns, AbsentStays, StampTells,
      Quiet, Whole, Snapshot, HasPhantom, Reported, ClashesIn, Calm, Inherited, NoTornHit, RecentHarmless, InTurn,
      Undisturbed, AllWorth, AllWhole, Worth;
    var index := new StatIndex();
    results, passes, spans, later := [], [], [], now;
    ScanManyStarts(s, now);
    for i := 0 to times
      invariant |results| == |passes| == |spans| == i && later >= now && fresh(index)
      invariant InTurn(spans, now, later) && AllWorth(s, now, results, passes, spans)
      invariant Inherited(s, map[], index.rows, now, later)
      invariant Reads(s) && NeverReturns(s) ==> Truthful(s, index.rows, later)
      invariant Reads(s) && StampTells(s) && Undisturbed(s, spans) ==>
        Truthful(s, index.rows, later) && AllWhole(s, results, passes)
    {
      ghost var before, had := later, index.rows;
      later := Wait(later);
      Later(s, had, before, before, later);
      InheritedLonger(s, map[], had, now, before, now, later);
      ghost var from := later;
      var r;
      ghost var q;
      r, later, q := ScanWith(s, index, later);
      InheritedOnwards(s, map[], had, index.rows, now, from, later);
      InTurnNext(spans, now, before, from, later);
      TrustedEither(s, from, later);
      if r.Ok? {
        PassTimes(s, q);
        WorthNow(s, q, had, now, from);
      }
      AllWorthNext(s, now, results, passes, spans, r, q, Span(from, later));
      if Reads(s) && StampTells(s) && Undisturbed(s, spans + [Span(from, later)]) {
        UndisturbedBefore(s, spans, Span(from, later));
        AllWholeNext(s, results, passes, r, q);
      }
      results, passes, spans := results + [r], passes + [q], spans + [Span(from, later)];
    }
  }

  lemma TrustedEither(s: Setting, from: nat, to: nat)
    ensures NeverReturns(s) || (StampTells(s) && Quiet(s, from, to)) ==> Trusted(s, from, to)
  {
    hide NeverReturns, StampTells, Quiet;
  }

  lemma ScanManyStarts(s: Setting, now: nat)
    ensures InTurn([], now, now) && AllWorth(s, now, [], [], []) && AllWhole(s, [], [])
    ensures Inherited(s, map[], map[], now, now) && Truthful(s, map[], now)
  {
  }

  // ---- a torn row that answers later ----

  /** A file that is edited while the first attempt reads it, and put back with its old time. */
  function PutBack(path: Str, x: Str, y: Str): History {
    (t: nat) => map[path := if 1 <= t <= 3 then Regular(y, 1, false) else Regular(x, 0, false)]
  }

  /** It states x, reads y, and sees at the end that the file moved. */
  function RefusedPass(path: Str, x: Str, y: Str): Pass {
    var listing := Listing([path], {}, {}, [], false);
    Pass(0, listing, [0], map[path := Stamp(|x|, 0)], 0, map[], [Look(0, 1)], 2, listing, [2],
         map[path := Stamp(|y|, 1)], 2)
  }

  /** What it recorded. */
  function LeftBehind(path: Str, x: Str, y: Str, hash: Str -> Str): Rows {
    map[path := Stat(Stamp(|x|, 0), hash(y))]
  }

  /** The next attempt, over a file that has been x for a while. */
  function NextPass(path: Str, x: Str, y: Str, hash: Str -> Str): Pass {
    var listing, stats := Listing([path], {}, {}, [], false), map[path := Stamp(|x|, 0)];
    Pass(4, listing, [4], stats, 4, LeftBehind(path, x, y, hash), [Look(4, 4)], 5, listing, [5], stats, 5)
  }

  lemma RefusedIsObserved(path: Str, x: Str, y: Str, hash: Str -> Str)
    ensures var s, q := OneFile(path, PutBack(path, x, y), hash), RefusedPass(path, x, y);
      Observed(s, q) && !Settled(q)
  {
    var q := RefusedPass(path, x, y);
    assert Get(q.before, path) == Some(Stamp(|x|, 0)) && Get(q.after, path) == Some(Stamp(|y|, 1));
  }

  /** The row is what hashing that pass leaves: no miss is left, and each row was read in the pass. */
  lemma RefusedLeavesRow(path: Str, x: Str, y: Str, hash: Str -> Str)
    requires IsSafeRelativePath(path)
    ensures var s, q := OneFile(path, PutBack(path, x, y), hash), RefusedPass(path, x, y);
      && AllReplay(s, q.listing, q.known, LeftBehind(path, x, y, hash), q.looks)
      && Inherited(s, q.known, LeftBehind(path, x, y, hash), q.start, q.end)
      && Misses(s, q.known, q.listing.paths, q.looks) == 1
  {
    hide IsSafeRelativePath;
    var s, q, rows := OneFile(path, PutBack(path, x, y), hash), RefusedPass(path, x, y), LeftBehind(path, x, y, hash);
    assert path in s.h(0) && s.h(0)[path] == Regular(x, 0, false);
    assert path in s.h(1) && s.h(1)[path] == Regular(y, 1, false);
    assert Witnessed(s, path, rows[path], Look(0, 1));
    assert WitnessedWithin(s, path, rows[path], 0, 2);
    assert Missed(s, map[], s.h(0), path);
    assert Misses(s, map[], [], []) == 0;
    assert [path][..0] == [] && [Look(0, 1)][..0] == [];
  }

  lemma NextIsObserved(path: Str, x: Str, y: Str, hash: Str -> Str)
    ensures var s, q := OneFile(path, PutBack(path, x, y), hash), NextPass(path, x, y, hash);
      Observed(s, q) && Settled(q) && Quiet(s, q.start, q.end) && Reads(s) && StampTells(s)
  {
  }

  /** An attempt that is refused because a file moved leaves a row that makes the next one wrong: the
      next sees a worktree nobody edits, is accepted, and lists the file with the hash of the other
      content. Every stamp that returns brings its content back. */
  lemma RefusedAttemptPoisons(path: Str, x: Str, y: Str, hash: Str -> Str)
    requires IsSafeRelativePath(path) && hash(x) != hash(y)
    ensures var s := OneFile(path, PutBack(path, x, y), hash);
      var refused, next := RefusedPass(path, x, y), NextPass(path, x, y, hash);
      && Reads(s) && StampTells(s)
      && Observed(s, refused) && !Settled(refused) && refused.known == map[]
      && AllReplay(s, refused.listing, refused.known, next.known, refused.looks)
      && Inherited(s, refused.known, next.known, refused.start, refused.end)
      && refused.end <= next.start && Observed(s, next) && Settled(next) && Quiet(s, next.start, next.end)
      && !Whole(s, next)
  {
    RefusedIsObserved(path, x, y, hash);
    RefusedLeavesRow(path, x, y, hash);
    NextIsObserved(path, x, y, hash);
    var s, q := OneFile(path, PutBack(path, x, y), hash), NextPass(path, x, y, hash);
    assert path in s.h(4) && s.h(4)[path] == Regular(x, 0, false);
    assert path in q.listing.paths && Visible(s, s.h(q.middle), path) && !HitRight(s, q, path);
    hide IsSafeRelativePath, Observed, Settled, Quiet, Reads, StampTells, AllReplay, Inherited, HitRight, EntriesOf,
      Full, Stripped;
    QuietPassExactly(s, q);
  }
}
