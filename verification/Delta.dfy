/** Diagnostics against a baseline (crates/rc-core/src/delta.rs). */
module Delta {
  import opened Text
  import opened Sorting

  const UNKNOWN: Str := Ascii("(unknown)")
  const SRC: Str := Ascii("src")

  datatype Diagnostic = Diagnostic(level: Str, code: Str, file: Str, message: Str)

  /** The two identities of a diagnostic are parameters: with and without its file. */
  datatype Identity = Identity(strict: Diagnostic -> Str, fuzzy: Diagnostic -> Str)

  datatype DiagDelta = DiagDelta(
    newCount: nat,
    fixedCount: nat,
    preexistingCount: nat,
    newDiagnostics: seq<Diagnostic>,
    preexistingSummary: seq<Str>,
    baselineTaskId: Str,
    approximate: bool)

  type Counts<K> = map<K, nat>

  function Keys<D, K>(key: D -> K, list: seq<D>): (r: seq<K>)
    ensures |r| == |list|
    ensures forall k :: 0 <= k < |r| ==> r[k] == key(list[k])
  {
    seq(|list|, k requires 0 <= k < |list| => key(list[k]))
  }

  ghost function Bag<D, K>(key: D -> K, list: seq<D>): multiset<K> {
    multiset(Keys(key, list))
  }

  function Of<K(==)>(counts: Counts<K>, key: K): nat {
    if key in counts then counts[key] else 0
  }

  /** `counts` is how often each key occurs. */
  ghost predicate Tallies<K(!new)>(counts: Counts<K>, bag: multiset<K>) {
    forall k :: Of(counts, k) == bag[k]
  }

  lemma BagPush<D, K>(key: D -> K, list: seq<D>, n: nat)
    requires n < |list|
    ensures Bag(key, list[..n + 1]) == Bag(key, list[..n]) + multiset{key(list[n])}
  {
    assert Keys(key, list[..n + 1]) == Keys(key, list[..n]) + [key(list[n])];
  }

  lemma BagSize<D, K>(key: D -> K, list: seq<D>)
    ensures |Bag(key, list)| == |list|
  {
  }

  method CountKeys<D, K(==, !new)>(key: D -> K, list: seq<D>) returns (counts: Counts<K>)
    ensures Tallies(counts, Bag(key, list))
  {
    counts := map[];
    for i := 0 to |list|
      invariant Tallies(counts, Bag(key, list[..i]))
    {
      var k := key(list[i]);
      BagPush(key, list, i);
      counts := counts[k := Of(counts, k) + 1];
    }
    assert list[..|list|] == list;
  }

  /** Every count, added up in whatever order the table yields them. */
  method SumCounts<K(==, !new)>(counts: Counts<K>, ghost bag: multiset<K>) returns (sum: nat)
    requires Tallies(counts, bag)
    ensures sum == |bag|
  {
    sum := 0;
    var left := counts.Keys;
    ghost var rest := bag;
    while left != {}
      invariant left <= counts.Keys && sum + |rest| == |bag|
      invariant forall k :: rest[k] == if k in left then counts[k] else 0
      decreases |left|
    {
      var k :| k in left;
      left := left - {k};
      sum := sum + counts[k];
      rest := rest[k := 0];
    }
    assert rest == multiset{};
  }

  // ---- matching current against baseline ----

  /** Whether the `i`-th diagnostic finds no baseline occurrence left. */
  ghost predicate IsNew<D, K>(key: D -> K, current: seq<D>, base: multiset<K>, i: nat)
    requires i < |current|
  {
    base[key(current[i])] <= Bag(key, current[..i])[key(current[i])]
  }

  /** The diagnostics among the first `n` the baseline does not account for, in order. */
  ghost function NewOnes<D, K>(key: D -> K, current: seq<D>, base: multiset<K>, n: nat): seq<D>
    requires n <= |current|
  {
    if n == 0 then []
    else NewOnes(key, current, base, n - 1) + (if IsNew(key, current, base, n - 1) then [current[n - 1]] else [])
  }

  ghost function OldOnes<D, K>(key: D -> K, current: seq<D>, base: multiset<K>, n: nat): seq<D>
    requires n <= |current|
  {
    if n == 0 then []
    else OldOnes(key, current, base, n - 1) + (if IsNew(key, current, base, n - 1) then [] else [current[n - 1]])
  }

  lemma KeysConcat<D, K>(key: D -> K, a: seq<D>, b: seq<D>)
    ensures Bag(key, a + b) == Bag(key, a) + Bag(key, b)
  {
    assert Keys(key, a + b) == Keys(key, a) + Keys(key, b);
  }

  lemma BagOfOne<D, K>(key: D -> K, d: D)
    ensures Bag(key, [d]) == multiset{key(d)} && Bag(key, []) == multiset{}
  {
    assert Keys(key, [d]) == [key(d)];
  }

  /** Matching is multiset subtraction: the unmatched are what `current` has beyond the baseline,
      the matched what both have. */
  lemma {:induction false} MatchingSubtracts<D, K>(key: D -> K, current: seq<D>, base: multiset<K>, n: nat)
    requires n <= |current|
    ensures Bag(key, NewOnes(key, current, base, n)) == Bag(key, current[..n]) - base
    ensures Bag(key, OldOnes(key, current, base, n)) == Bag(key, current[..n]) * base
    ensures |NewOnes(key, current, base, n)| + |OldOnes(key, current, base, n)| == n
  {
    hide IsNew;
    if n > 0 {
      hide Bag;
      MatchingSubtracts(key, current, base, n - 1);
      MatchStep(key, current, base, n - 1);
    } else {
      assert current[..0] == [];
    }
  }

  lemma MatchStep<D, K>(key: D -> K, current: seq<D>, base: multiset<K>, n: nat)
    requires n < |current|
    requires Bag(key, NewOnes(key, current, base, n)) == Bag(key, current[..n]) - base
    requires Bag(key, OldOnes(key, current, base, n)) == Bag(key, current[..n]) * base
    ensures Bag(key, NewOnes(key, current, base, n + 1)) == Bag(key, current[..n + 1]) - base
    ensures Bag(key, OldOnes(key, current, base, n + 1)) == Bag(key, current[..n + 1]) * base
  {
    var d := current[n];
    BagPush(key, current, n);
    KeysConcat(key, NewOnes(key, current, base, n), [d]);
    KeysConcat(key, OldOnes(key, current, base, n), [d]);
    KeysConcat(key, NewOnes(key, current, base, n), []);
    KeysConcat(key, OldOnes(key, current, base, n), []);
    BagOfOne(key, d);
    OneMore(Bag(key, current[..n]), base, key(d));
  }

  lemma OneMore<K>(c: multiset<K>, base: multiset<K>, k: K)
    ensures (c + multiset{k}) - base == (c - base) + (if base[k] <= c[k] then multiset{k} else multiset{})
    ensures (c + multiset{k}) * base == (c * base) + (if base[k] <= c[k] then multiset{} else multiset{k})
  {
  }

  /** One diagnostic matched against what is left of the baseline. */
  lemma Taken<D, K(!new)>(key: D -> K, current: seq<D>, base: multiset<K>, remaining: Counts<K>, i: nat)
    requires i < |current| && Tallies(remaining, base - Bag(key, current[..i]))
    ensures var k := key(current[i]); var left := Of(remaining, k);
      && (left > 0 <==> !IsNew(key, current, base, i))
      && Tallies(if left > 0 then remaining[k := left - 1] else remaining, base - Bag(key, current[..i + 1]))
  {
    var k := key(current[i]);
    BagPush(key, current, i);
    var before, after := base - Bag(key, current[..i]), base - Bag(key, current[..i + 1]);
    assert Of(remaining, k) == before[k];
    assert forall j :: j != k ==> after[j] == before[j];
    assert after[k] == if before[k] > 0 then before[k] - 1 else 0;
    hide Bag;
  }

  lemma NothingTaken<D, K(!new)>(key: D -> K, current: seq<D>, base: multiset<K>, counts: Counts<K>)
    requires Tallies(counts, base)
    ensures Tallies(counts, base - Bag(key, current[..0]))
  {
    assert Keys(key, current[..0]) == [];
    assert base - multiset{} == base;
  }

  method Match<D, K(==, !new)>(key: D -> K, current: seq<D>, counts: Counts<K>, ghost base: multiset<K>)
    returns (novel: seq<D>, preexisting: nat, remaining: Counts<K>)
    requires Tallies(counts, base)
    ensures novel == NewOnes(key, current, base, |current|)
    ensures preexisting == |OldOnes(key, current, base, |current|)|
    ensures Tallies(remaining, base - Bag(key, current))
  {
    hide Tallies, IsNew, Bag;
    novel := [];
    preexisting := 0;
    remaining := counts;
    NothingTaken(key, current, base, counts);
    for i := 0 to |current|
      invariant novel == NewOnes(key, current, base, i)
      invariant preexisting == |OldOnes(key, current, base, i)|
      invariant Tallies(remaining, base - Bag(key, current[..i]))
    {
      var k := key(current[i]);
      var left := Of(remaining, k);
      Taken(key, current, base, remaining, i);
      if left > 0 {
        preexisting := preexisting + 1;
        remaining := remaining[k := left - 1];
      } else {
        novel := novel + [current[i]];
      }
    }
    assert current[..|current|] == current;
  }

  // ---- the summary per crate ----

  /** First path component that is neither empty nor `src`. */
  function FirstNamed(parts: seq<Str>): Str {
    if parts == [] then UNKNOWN
    else if parts[0] != SRC && parts[0] != [] then parts[0]
    else FirstNamed(parts[1..])
  }

  function CrateOf(d: Diagnostic): Str {
    FirstNamed(Split(d.file, SLASH))
  }

  lemma {:induction false} FirstNamedIs(parts: seq<Str>, i: nat)
    requires i <= |parts| && forall j :: 0 <= j < i ==> parts[j] == [] || parts[j] == Ascii("src")
    requires i < |parts| ==> parts[i] != [] && parts[i] != Ascii("src")
    ensures FirstNamed(parts) == if i < |parts| then parts[i] else Ascii("(unknown)")
  {
    if i > 0 {
      FirstNamedIs(parts[1..], i - 1);
    }
  }

  /** The crate of a diagnostic is the first component of its file that is neither empty nor `src`. */
  lemma CrateIsFirstNamed(d: Diagnostic, i: nat)
    requires var parts := Split(d.file, SLASH);
      && i <= |parts| && (forall j :: 0 <= j < i ==> parts[j] == [] || parts[j] == Ascii("src"))
      && (i < |parts| ==> parts[i] != [] && parts[i] != Ascii("src"))
    ensures CrateOf(d) == if i < |Split(d.file, SLASH)| then Split(d.file, SLASH)[i] else Ascii("(unknown)")
  {
    FirstNamedIs(Split(d.file, SLASH), i);
  }

  lemma CrateStep<D, K, C(!new)>(key: D -> K, crate: D -> C, current: seq<D>, base: multiset<K>, byCrate: Counts<C>,
                          i: nat)
    requires i < |current| && Tallies(byCrate, Bag(crate, OldOnes(key, current, base, i)))
    ensures var c := crate(current[i]);
      Tallies(if IsNew(key, current, base, i) then byCrate else byCrate[c := Of(byCrate, c) + 1],
              Bag(crate, OldOnes(key, current, base, i + 1)))
  {
    hide IsNew;
    var matched := OldOnes(key, current, base, i);
    KeysConcat(crate, matched, [current[i]]);
    assert matched + [] == matched;
    BagOfOne(crate, current[i]);
    hide Bag;
  }

  lemma NoCrates<D, K, C(!new)>(key: D -> K, crate: D -> C, current: seq<D>, base: multiset<K>)
    ensures Tallies(map[], Bag(crate, OldOnes(key, current, base, 0)))
  {
    assert Keys(crate, []) == [];
  }

  method CountCrates<D, K(==, !new), C(==, !new)>(key: D -> K, crate: D -> C, current: seq<D>, counts: Counts<K>,
                          ghost base: multiset<K>)
    returns (byCrate: Counts<C>)
    requires Tallies(counts, base)
    ensures Tallies(byCrate, Bag(crate, OldOnes(key, current, base, |current|)))
    ensures forall c :: c in byCrate ==> byCrate[c] > 0
  {
    hide Tallies, Bag, IsNew, OldOnes;
    byCrate := map[];
    var remaining := counts;
    NothingTaken(key, current, base, counts);
    NoCrates(key, crate, current, base);
    for i := 0 to |current|
      invariant Tallies(byCrate, Bag(crate, OldOnes(key, current, base, i)))
      invariant Tallies(remaining, base - Bag(key, current[..i]))
      invariant forall c :: c in byCrate ==> byCrate[c] > 0
    {
      var k := key(current[i]);
      var left := Of(remaining, k);
      Taken(key, current, base, remaining, i);
      CrateStep(key, crate, current, base, byCrate, i);
      if left > 0 {
        remaining := remaining[k := left - 1];
        var c := crate(current[i]);
        byCrate := byCrate[c := Of(byCrate, c) + 1];
      }
    }
  }

  function SummaryLine(crate: Str, n: nat): Str {
    crate + Ascii(": ") + Decimal(n)
  }

  ghost predicate Summarizes(lines: seq<Str>, byCrate: Counts<Str>) {
    && Sorted(Leq, lines) && |lines| == |byCrate|
    && (forall c :: c in byCrate ==> SummaryLine(c, byCrate[c]) in lines)
    && (forall line :: line in lines ==> exists c :: c in byCrate && line == SummaryLine(c, byCrate[c]))
  }

  method Summarize(byCrate: Counts<Str>) returns (lines: seq<Str>)
    ensures Summarizes(lines, byCrate)
  {
    hide SummaryLine, Summarizes;
    var crates := Listing(byCrate.Keys);
    var unsorted: seq<Str> := [];
    for i := 0 to |crates|
      invariant |unsorted| == i
      invariant forall j :: 0 <= j < i ==> unsorted[j] == SummaryLine(crates[j], byCrate[crates[j]])
    {
      unsorted := unsorted + [SummaryLine(crates[i], byCrate[crates[i]])];
    }
    LinesSummarize(crates, unsorted, byCrate);
    lines := Sort(Leq, unsorted);
  }

  /** Lists that image the same keys, in whatever order. */
  lemma ImagesOf<K, T>(keys: seq<K>, line: K -> T, unsorted: seq<T>, sorted: seq<T>)
    requires |unsorted| == |keys| && forall j :: 0 <= j < |keys| ==> unsorted[j] == line(keys[j])
    requires forall x :: x in unsorted <==> x in sorted
    ensures forall k :: k in keys ==> line(k) in sorted
    ensures forall x :: x in sorted ==> exists k :: k in keys && x == line(k)
  {
    forall k | k in keys ensures line(k) in sorted {
      var j :| 0 <= j < |keys| && keys[j] == k;
      assert unsorted[j] == line(k);
    }
    forall x | x in sorted ensures exists k :: k in keys && x == line(k) {
      var j :| 0 <= j < |unsorted| && unsorted[j] == x;
      assert keys[j] in keys;
    }
  }

  lemma LinesSummarize(crates: seq<Str>, unsorted: seq<Str>, byCrate: Counts<Str>)
    requires forall c :: c in crates <==> c in byCrate
    requires forall i, j :: 0 <= i < j < |crates| ==> crates[i] != crates[j]
    requires |unsorted| == |crates|
    requires forall j :: 0 <= j < |crates| ==> unsorted[j] == SummaryLine(crates[j], byCrate[crates[j]])
    ensures Summarizes(Sort(Leq, unsorted), byCrate)
  {
    hide SummaryLine, Sort, Leq, Sorted, TotalPreorder;
    var lines := Sort(Leq, unsorted);
    LeqIsTotalPreorder();
    SortSorts(Leq, unsorted);
    SameElements(unsorted, lines);
    ListingSize(crates, byCrate.Keys);
    ImagesOf(crates, (c: Str) => SummaryLine(c, Of(byCrate, c)), unsorted, lines);
    forall c | c in byCrate ensures SummaryLine(c, byCrate[c]) in lines {
      assert c in crates;
    }
    forall line | line in lines ensures exists c :: c in byCrate && line == SummaryLine(c, byCrate[c]) {
      var k :| k in crates && line == SummaryLine(k, Of(byCrate, k));
      assert k in byCrate;
    }
  }

  lemma {:induction false} ListingSize<K>(listed: seq<K>, keys: set<K>)
    requires forall x :: x in listed <==> x in keys
    requires forall i, j :: 0 <= i < j < |listed| ==> listed[i] != listed[j]
    ensures |listed| == |keys|
  {
    if listed != [] {
      assert listed == [listed[0]] + listed[1..];
      ListingSize(listed[1..], keys - {listed[0]});
    } else {
      assert keys == {};
    }
  }

  // ---- the lists, said of themselves ----

  ghost function Places<D, K>(key: D -> K, list: seq<D>, k: K): set<nat> {
    set j | 0 <= j < |list| && key(list[j]) == k
  }

  lemma {:induction false} PlacesCount<D, K>(key: D -> K, list: seq<D>, k: K)
    ensures Bag(key, list)[k] == |Places(key, list, k)|
  {
    if list == [] {
      assert Places(key, list, k) == {};
    } else {
      var n := |list| - 1;
      PlacesCount(key, list[..n], k);
      BagPush(key, list, n);
      assert list[..n + 1] == list;
      assert Places(key, list, k) == Places(key, list[..n], k) + if key(list[n]) == k then {n} else {};
    }
  }

  /** As many diagnostics with this key came before as the baseline holds. */
  ghost predicate Unmatched<D, K>(key: D -> K, current: seq<D>, baseline: seq<D>, i: nat)
    requires i < |current|
  {
    |Places(key, baseline, key(current[i]))| <= |Places(key, current[..i], key(current[i]))|
  }

  /** `picked` is `all` at the places `at`, in order. */
  ghost predicate Picked<D>(picked: seq<D>, all: seq<D>, at: seq<nat>) {
    && |at| == |picked|
    && (forall j :: 0 <= j < |at| ==> at[j] < |all| && picked[j] == all[at[j]])
    && forall i, j :: 0 <= i < j < |at| ==> at[i] < at[j]
  }

  /** The picks are exactly the unmatched ones. */
  ghost predicate PicksUnmatched<D, K>(picked: seq<D>, key: D -> K, current: seq<D>, baseline: seq<D>, at: seq<nat>) {
    Picked(picked, current, at) &&
    forall i: nat :: i < |current| ==> (i in at <==> Unmatched(key, current, baseline, i))
  }

  lemma UnmatchedIsNew<D, K>(key: D -> K, current: seq<D>, baseline: seq<D>, i: nat)
    requires i < |current|
    ensures Unmatched(key, current, baseline, i) <==> IsNew(key, current, Bag(key, baseline), i)
  {
    PlacesCount(key, baseline, key(current[i]));
    PlacesCount(key, current[..i], key(current[i]));
    hide Bag, Places;
  }

  lemma PickedNext<D>(picked: seq<D>, all: seq<D>, at: seq<nat>, i: nat)
    requires Picked(picked, all, at) && i < |all| && forall j :: j in at ==> j < i
    ensures Picked(picked + [all[i]], all, at + [i])
  {
    assert forall k :: 0 <= k < |at| ==> at[k] in at;
  }

  lemma NewOnesNext<D, K>(key: D -> K, current: seq<D>, base: multiset<K>, n: nat)
    requires n < |current|
    ensures NewOnes(key, current, base, n + 1) ==
      NewOnes(key, current, base, n) + if IsNew(key, current, base, n) then [current[n]] else []
  {
    hide IsNew;
  }

  lemma {:induction false} NewOnesAt<D, K>(key: D -> K, current: seq<D>, baseline: seq<D>, n: nat)
    returns (at: seq<nat>)
    requires n <= |current|
    ensures Picked(NewOnes(key, current, Bag(key, baseline), n), current, at)
    ensures forall j :: j in at ==> j < n
    ensures forall i :: 0 <= i < n ==> (i in at <==> Unmatched(key, current, baseline, i))
  {
    hide IsNew, Bag, Unmatched;
    at := [];
    if n > 0 {
      hide NewOnes;
      NewOnesNext(key, current, Bag(key, baseline), n - 1);
      at := NewOnesAt(key, current, baseline, n - 1);
      UnmatchedIsNew(key, current, baseline, n - 1);
      assert n - 1 !in at;
      PickedNext(NewOnes(key, current, Bag(key, baseline), n - 1), current, at, n - 1);
      hide Picked;
      if IsNew(key, current, Bag(key, baseline), n - 1) {
        at := at + [n - 1];
      }
    }
  }

  /** The preexisting diagnostics of one crate, among the first `n`. */
  ghost function OldIn<D, K, C>(key: D -> K, crate: D -> C, current: seq<D>, baseline: seq<D>, c: C, n: nat): set<nat>
    requires n <= |current|
  {
    set i | 0 <= i < n && !Unmatched(key, current, baseline, i) && crate(current[i]) == c
  }

  lemma OldInNext<D, K, C>(key: D -> K, crate: D -> C, current: seq<D>, baseline: seq<D>, c: C, n: nat)
    requires n < |current|
    ensures |OldIn(key, crate, current, baseline, c, n + 1)| == |OldIn(key, crate, current, baseline, c, n)| +
      if !Unmatched(key, current, baseline, n) && crate(current[n]) == c then 1 else 0
  {
    hide Unmatched;
    assert OldIn(key, crate, current, baseline, c, n + 1) == OldIn(key, crate, current, baseline, c, n) +
      if !Unmatched(key, current, baseline, n) && crate(current[n]) == c then {n} else {};
  }

  lemma {:induction false} OldOnesCount<D, K, C>(key: D -> K, crate: D -> C, current: seq<D>, baseline: seq<D>, c: C,
                                                 n: nat)
    requires n <= |current|
    ensures Bag(crate, OldOnes(key, current, Bag(key, baseline), n))[c] ==
      |OldIn(key, crate, current, baseline, c, n)|
  {
    hide IsNew, Unmatched;
    if n == 0 {
      assert OldIn(key, crate, current, baseline, c, 0) == {};
      assert Keys(crate, []) == [];
    } else {
      hide Bag;
      var d := current[n - 1];
      var matched := OldOnes(key, current, Bag(key, baseline), n - 1);
      OldOnesCount(key, crate, current, baseline, c, n - 1);
      UnmatchedIsNew(key, current, baseline, n - 1);
      KeysConcat(crate, matched, [d]);
      BagOfOne(crate, d);
      assert matched + [] == matched;
      OldInNext(key, crate, current, baseline, c, n - 1);
      hide OldIn;
    }
  }

  /** A summary line names its crate and spells its count. */
  ghost predicate Tells(line: Str, crate: Str, n: nat) {
    |line| > |crate| + 2 && line[..|crate| + 2] == crate + [58, 32] && Spells(line[|crate| + 2..], n)
  }

  ghost predicate HasLine(lines: seq<Str>, crate: Str, n: nat) {
    exists line :: line in lines && Tells(line, crate, n)
  }

  ghost predicate HasCrate(byCrate: Counts<Str>, line: Str) {
    exists c :: c in byCrate && Tells(line, c, byCrate[c])
  }

  /** One line for each crate, with its count. */
  ghost predicate Told(lines: seq<Str>, byCrate: Counts<Str>) {
    && |lines| == |byCrate|
    && (forall c :: c in byCrate ==> HasLine(lines, c, byCrate[c]))
    && (forall line :: line in lines ==> HasCrate(byCrate, line))
  }

  lemma SummaryLineTells(crate: Str, n: nat)
    ensures Tells(SummaryLine(crate, n), crate, n)
  {
    hide Decimal, Spells;
    DecimalSpells(n);
    var line := SummaryLine(crate, n);
    assert line[|crate| + 2..] == Decimal(n);
    assert Ascii(": ") == [58, 32];
  }

  lemma LineTells(lines: seq<Str>, byCrate: Counts<Str>, c: Str)
    requires c in byCrate && SummaryLine(c, byCrate[c]) in lines
    ensures HasLine(lines, c, byCrate[c]) && HasCrate(byCrate, SummaryLine(c, byCrate[c]))
  {
    hide Tells, SummaryLine;
    SummaryLineTells(c, byCrate[c]);
  }

  lemma SummaryTells(lines: seq<Str>, byCrate: Counts<Str>)
    requires Summarizes(lines, byCrate)
    ensures Told(lines, byCrate) && Sorted(Leq, lines)
  {
    hide HasLine, HasCrate, SummaryLine, Leq, Sorted;
    forall c | c in byCrate ensures HasLine(lines, c, byCrate[c]) {
      LineTells(lines, byCrate, c);
    }
    forall line | line in lines ensures HasCrate(byCrate, line) {
      var c :| c in byCrate && line == SummaryLine(c, byCrate[c]);
      LineTells(lines, byCrate, c);
    }
  }

  // ---- the delta ----

  ghost predicate RenameHint(id: Identity, novel: seq<Diagnostic>, baseline: seq<Diagnostic>, fixed: nat) {
    fixed > 0 && exists d, b :: d in novel && b in baseline && id.fuzzy(d) == id.fuzzy(b)
  }

  predicate EmptyCode(d: Diagnostic) {
    d.code == [] && (d.level == Ascii("error") || d.level == Ascii("warning"))
  }

  method AnyEmptyCode(list: seq<Diagnostic>) returns (r: bool)
    ensures r <==> exists d :: d in list && EmptyCode(d)
  {
    for i := 0 to |list|
      invariant forall j :: 0 <= j < i ==> !EmptyCode(list[j])
    {
      if EmptyCode(list[i]) {
        return true;
      }
    }
    return false;
  }

  method FindRename(id: Identity, novel: seq<Diagnostic>, baseline: seq<Diagnostic>, fixed: nat) returns (r: bool)
    ensures r <==> RenameHint(id, novel, baseline, fixed)
  {
    r := false;
    if novel != [] && fixed > 0 {
      var known := CountKeys(id.fuzzy, baseline);
      KnownIffPresent(id.fuzzy, baseline, known);
      for i := 0 to |novel|
        invariant forall j, b :: 0 <= j < i && b in baseline ==> id.fuzzy(novel[j]) != id.fuzzy(b)
      {
        if Of(known, id.fuzzy(novel[i])) > 0 {
          assert novel[i] in novel;
          return true;
        }
      }
    }
  }

  lemma KnownIffPresent<D, K(!new)>(key: D -> K, list: seq<D>, counts: Counts<K>)
    requires Tallies(counts, Bag(key, list))
    ensures forall k :: Of(counts, k) > 0 <==> exists d :: d in list && key(d) == k
  {
    forall k ensures Of(counts, k) > 0 <==> exists d :: d in list && key(d) == k {
      assert Of(counts, k) > 0 <==> k in Keys(key, list);
      if k in Keys(key, list) {
        var j :| 0 <= j < |list| && Keys(key, list)[j] == k;
        assert list[j] in list;
      }
      if d :| d in list && key(d) == k {
        var j :| 0 <= j < |list| && list[j] == d;
        assert Keys(key, list)[j] == k;
      }
    }
  }

  lemma NewOnesPicked(id: Identity, current: seq<Diagnostic>, baseline: seq<Diagnostic>)
    ensures exists at ::
      PicksUnmatched(NewOnes(id.strict, current, Bag(id.strict, baseline), |current|), id.strict, current, baseline, at)
  {
    hide NewOnes, Bag, Unmatched, Picked;
    var at := NewOnesAt(id.strict, current, baseline, |current|);
    assert PicksUnmatched(NewOnes(id.strict, current, Bag(id.strict, baseline), |current|), id.strict, current,
                          baseline, at);
  }

  lemma CratesCounted(id: Identity, current: seq<Diagnostic>, baseline: seq<Diagnostic>, byCrate: Counts<Str>)
    requires Tallies(byCrate, Bag(CrateOf, OldOnes(id.strict, current, Bag(id.strict, baseline), |current|)))
    ensures forall c :: Of(byCrate, c) == |OldIn(id.strict, CrateOf, current, baseline, c, |current|)|
  {
    hide Bag, OldOnes, CrateOf, OldIn, Of;
    forall c ensures Of(byCrate, c) == |OldIn(id.strict, CrateOf, current, baseline, c, |current|)| {
      OldOnesCount(id.strict, CrateOf, current, baseline, c, |current|);
    }
  }

  /** `compute_delta`. The counts are those of multiset subtraction on the strict keys. */
  method ComputeDelta(id: Identity, current: seq<Diagnostic>, baseline: seq<Diagnostic>, baselineTaskId: Str,
                      currentTruncated: nat, baselineTruncated: nat)
    returns (r: DiagDelta, byCrate: Counts<Str>)
    ensures var cur := Bag(id.strict, current); var base := Bag(id.strict, baseline);
      && r.newCount == |r.newDiagnostics| == |cur - base|
      && r.preexistingCount == |cur * base|
      && Bag(id.strict, r.newDiagnostics) == cur - base
      && r.newDiagnostics == NewOnes(id.strict, current, base, |current|)
    ensures currentTruncated == 0 && baselineTruncated == 0 ==>
      r.fixedCount == |Bag(id.strict, baseline) - Bag(id.strict, current)|
    ensures currentTruncated > 0 || baselineTruncated > 0 ==> r.fixedCount == 0
    ensures Summarizes(r.preexistingSummary, byCrate)
    ensures Tallies(byCrate, Bag(CrateOf, OldOnes(id.strict, current, Bag(id.strict, baseline), |current|)))
    ensures exists at :: PicksUnmatched(r.newDiagnostics, id.strict, current, baseline, at)
    ensures forall c :: Of(byCrate, c) == |OldIn(id.strict, CrateOf, current, baseline, c, |current|)|
    ensures Told(r.preexistingSummary, byCrate) && Sorted(Leq, r.preexistingSummary)
    ensures r.baselineTaskId == baselineTaskId
    ensures r.approximate <==> (currentTruncated > 0 || baselineTruncated > 0
      || (exists d :: d in current + baseline && d.code == [] && d.level in {Ascii("error"), Ascii("warning")})
      || RenameHint(id, r.newDiagnostics, baseline, |Bag(id.strict, baseline) - Bag(id.strict, current)|))
  {
    hide IsNew, RenameHint, Summarizes, Told, PicksUnmatched, CrateOf, OldIn, Sorted, Tallies;
    NewOnesPicked(id, current, baseline);
    ghost var base := Bag(id.strict, baseline);
    var baseCounts := CountKeys(id.strict, baseline);
    var novel, preexisting, remaining := Match(id.strict, current, baseCounts, base);
    var fixed := SumCounts(remaining, base - Bag(id.strict, current));
    var emptyCode := AnyEmptyCode(current + baseline);
    var renameHint := FindRename(id, novel, baseline, fixed);
    var truncated := currentTruncated > 0 || baselineTruncated > 0;
    var approximate := truncated || emptyCode || renameHint;
    byCrate := CountCrates(id.strict, CrateOf, current, baseCounts, base);
    CratesCounted(id, current, baseline, byCrate);
    var summary := Summarize(byCrate);
    SummaryTells(summary, byCrate);
    MatchingSubtracts(id.strict, current, base, |current|);
    assert current[..|current|] == current;
    BagSize(id.strict, novel);
    BagSize(id.strict, OldOnes(id.strict, current, base, |current|));
    r := DiagDelta(|novel|, if truncated then 0 else fixed, preexisting, novel, summary, baselineTaskId, approximate);
  }

  // ---- what the numbers say ----

  /** The numbers of a delta between two bags of keys. */
  datatype Numbers = Numbers(novel: nat, preexisting: nat, fixed: nat)

  ghost function NumbersOf<K>(cur: multiset<K>, base: multiset<K>): Numbers {
    Numbers(|cur - base|, |cur * base|, |base - cur|)
  }

  lemma SplitSize<K>(a: multiset<K>, b: multiset<K>)
    ensures |a - b| + |a * b| == |a|
  {
    assert (a - b) + (a * b) == a;
  }

  /** Every current diagnostic is new or preexisting, every baseline one fixed or preexisting, and
      swapping the two lists swaps new and fixed. */
  lemma NumbersBalance<D, K>(key: D -> K, current: seq<D>, baseline: seq<D>)
    ensures var n := NumbersOf(Bag(key, current), Bag(key, baseline));
      && n.novel + n.preexisting == |current|
      && n.fixed + n.preexisting == |baseline|
      && NumbersOf(Bag(key, baseline), Bag(key, current)) == Numbers(n.fixed, n.preexisting, n.novel)
  {
    var cur, base := Bag(key, current), Bag(key, baseline);
    SplitSize(cur, base);
    SplitSize(base, cur);
    assert cur * base == base * cur;
    BagSize(key, current);
    BagSize(key, baseline);
  }

  lemma {:induction false} BagOfPermutation<D, K>(key: D -> K, a: seq<D>, b: seq<D>)
    requires multiset(a) == multiset(b)
    ensures Bag(key, a) == Bag(key, b)
  {
    hide Bag;
    SameSize(a, b);
    if a == [] {
      assert a == b;
    } else {
      var i := PlaceOf(a, b);
      BagOfPermutation(key, a[1..], b[..i] + b[i + 1..]);
      assert a[..0] + a[0 + 1..] == a[1..];
      RemoveKeyed(key, a, 0);
      RemoveKeyed(key, b, i);
    }
  }

  lemma PlaceOf<D>(a: seq<D>, b: seq<D>) returns (i: nat)
    requires a != [] && multiset(a) == multiset(b)
    ensures i < |b| && b[i] == a[0] && multiset(a[1..]) == multiset(b[..i] + b[i + 1..])
  {
    i := IndexOf(b, a[0]) by { assert a[0] in multiset(b); }
    RemoveFirst(a);
    RemoveOne(b, i);
  }

  lemma IndexOf<T>(b: seq<T>, x: T) returns (i: nat)
    requires x in multiset(b)
    ensures i < |b| && b[i] == x
  {
    i :| 0 <= i < |b| && b[i] == x;
  }

  lemma RemoveFirst<T>(a: seq<T>)
    requires a != []
    ensures multiset(a[1..]) == multiset(a) - multiset{a[0]}
  {
    RemoveOne(a, 0);
    assert a[..0] + a[0 + 1..] == a[1..];
  }

  lemma RemoveOne<T>(b: seq<T>, i: nat)
    requires i < |b|
    ensures multiset(b[..i] + b[i + 1..]) == multiset(b) - multiset{b[i]}
  {
    assert b == b[..i] + ([b[i]] + b[i + 1..]);
  }

  /** The order of either list changes no number. */
  lemma OrderChangesNoNumber<D, K>(key: D -> K, current: seq<D>, baseline: seq<D>, current': seq<D>, baseline': seq<D>)
    requires multiset(current) == multiset(current') && multiset(baseline) == multiset(baseline')
    ensures NumbersOf(Bag(key, current), Bag(key, baseline)) == NumbersOf(Bag(key, current'), Bag(key, baseline'))
  {
    BagOfPermutation(key, current, current');
    BagOfPermutation(key, baseline, baseline');
  }

  /** The crates of the summary add up to the preexisting count. */
  lemma SummaryAddsUp<D, K, C>(key: D -> K, crate: D -> C, current: seq<D>, base: multiset<K>)
    ensures |Bag(crate, OldOnes(key, current, base, |current|))| == |Bag(key, current) * base|
  {
    var matched := OldOnes(key, current, base, |current|);
    MatchingSubtracts(key, current, base, |current|);
    assert current[..|current|] == current;
    BagSize(key, matched);
    BagSize(crate, matched);
  }

  ghost predicate Decides<D, K, C>(key: D -> K, crate: D -> C, a: seq<D>, b: seq<D>) {
    forall x, y :: x in a && y in b && key(x) == key(y) ==> crate(x) == crate(y)
  }

  lemma Cancel<K>(a: multiset<K>, b: multiset<K>, k: K)
    requires a + multiset{k} == b + multiset{k}
    ensures a == b
  {
    assert a == a + multiset{k} - multiset{k};
    assert b == b + multiset{k} - multiset{k};
  }

  /** Lists with the same keys have the same crates when a key decides the crate. */
  lemma {:induction false} KeysDecideCrates<D, K, C>(key: D -> K, crate: D -> C, a: seq<D>, b: seq<D>)
    requires Bag(key, a) == Bag(key, b) && Decides(key, crate, a, b)
    ensures Bag(crate, a) == Bag(crate, b)
  {
    BagSize(key, a);
    BagSize(key, b);
    hide Bag;
    if a == [] {
      assert a == b;
    } else {
      var i := KeyedAt(key, a, b);
      var rest := b[..i] + b[i + 1..];
      assert a[..0] + a[0 + 1..] == a[1..];
      RemoveKeyed(key, a, 0);
      RemoveKeyed(key, b, i);
      Cancel(Bag(key, a[1..]), Bag(key, rest), key(a[0]));
      DecidesRest(key, crate, a, b, i);
      hide Decides;
      KeysDecideCrates(key, crate, a[1..], rest);
      RemoveKeyed(crate, a, 0);
      RemoveKeyed(crate, b, i);
    }
  }

  lemma DecidesRest<D, K, C>(key: D -> K, crate: D -> C, a: seq<D>, b: seq<D>, i: nat)
    requires Decides(key, crate, a, b) && a != [] && i < |b| && key(a[0]) == key(b[i])
    ensures crate(a[0]) == crate(b[i]) && Decides(key, crate, a[1..], b[..i] + b[i + 1..])
  {
    assert a[0] in a && b[i] in b;
  }

  lemma KeyedAt<D, K>(key: D -> K, a: seq<D>, b: seq<D>) returns (i: nat)
    requires a != [] && Bag(key, a) == Bag(key, b)
    ensures i < |b| && key(b[i]) == key(a[0])
  {
    assert Keys(key, a)[0] in multiset(Keys(key, a));
    assert key(a[0]) in Keys(key, b);
    i :| 0 <= i < |b| && Keys(key, b)[i] == key(a[0]);
  }

  lemma RemoveKeyed<D, K>(key: D -> K, list: seq<D>, i: nat)
    requires i < |list|
    ensures Bag(key, list) == Bag(key, list[..i] + list[i + 1..]) + multiset{key(list[i])}
  {
    assert list == list[..i] + ([list[i]] + list[i + 1..]);
    KeysConcat(key, list[..i], list[i + 1..]);
    KeysConcat(key, [list[i]], list[i + 1..]);
    KeysConcat(key, list[..i], [list[i]] + list[i + 1..]);
    BagOfOne(key, list[i]);
  }

  /** So the order of the current list changes no line of the summary either. */
  lemma OrderChangesNoSummary<D, K, C>(key: D -> K, crate: D -> C, current: seq<D>, current': seq<D>, base: multiset<K>)
    requires multiset(current) == multiset(current')
    requires forall x, y :: x in current && y in current && key(x) == key(y) ==> crate(x) == crate(y)
    ensures Bag(crate, OldOnes(key, current, base, |current|)) == Bag(crate, OldOnes(key, current', base, |current'|))
  {
    hide Bag;
    MatchingSubtracts(key, current, base, |current|);
    MatchingSubtracts(key, current', base, |current'|);
    assert current[..|current|] == current && current'[..|current'|] == current';
    BagOfPermutation(key, current, current');
    SameElements(current, current');
    OldOnesAreCurrent(key, current, base, |current|);
    OldOnesAreCurrent(key, current', base, |current'|);
    KeysDecideCrates(key, crate, OldOnes(key, current, base, |current|), OldOnes(key, current', base, |current'|));
  }

  lemma {:induction false} OldOnesAreCurrent<D, K>(key: D -> K, current: seq<D>, base: multiset<K>, n: nat)
    requires n <= |current|
    ensures forall d :: d in OldOnes(key, current, base, n) ==> d in current
  {
    if n > 0 { OldOnesAreCurrent(key, current, base, n - 1); }
  }
}
