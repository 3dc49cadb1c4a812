/** The bounded evidence collector (crates/rc-core/src/envdep.rs). */
module EnvDep {
  import opened Text
  import opened Sorting

  const MAX_FINDINGS: nat := 12
  const COLLECT_LIMIT: nat := 48

  datatype DepKind = PkgConfig | Library | Header | Program | BuildScript

  datatype Confidence = Crate | Named | Explicit

  datatype MissingDep = MissingDep(name: Str, kind: DepKind, package: Option<Str>, certain: bool)

  datatype Finding = Finding(dep: MissingDep, confidence: Confidence)

  function Class(kind: DepKind): nat {
    match kind
    case PkgConfig | Library | Header => 0
    case Program => 1
    case BuildScript => 2
  }

  function Quality(d: MissingDep): nat {
    if d.package.None? then 0 else if d.certain then 2 else 1
  }

  function Rank(c: Confidence): nat {
    match c
    case Crate => 0
    case Named => 1
    case Explicit => 2
  }

  /** What a finding is about: two findings with one key are one fact. */
  datatype Fact = Fact(group: nat, name: Str)

  function FactOf(f: Finding): Fact {
    Fact(Class(f.dep.kind), Fold(f.dep.name))
  }

  /** First index at which `p` holds, or the length. */
  function IndexOf(p: Finding -> bool, found: seq<Finding>): (i: nat)
    ensures i <= |found|
    ensures i < |found| ==> p(found[i])
    ensures forall j :: 0 <= j < i ==> !p(found[j])
  {
    if found == [] || p(found[0]) then 0 else 1 + IndexOf(p, found[1..])
  }

  function SameFact(latest: Finding): Finding -> bool {
    (f: Finding) => FactOf(f) == FactOf(latest)
  }

  function SameName(latest: Finding): Finding -> bool {
    (f: Finding) => Fold(f.dep.name) == Fold(latest.dep.name)
  }

  /** First index of the least confidence. */
  function Weakest(found: seq<Finding>): (i: nat)
    requires found != []
    ensures i < |found|
    ensures forall j :: 0 <= j < |found| ==> Rank(found[i].confidence) <= Rank(found[j].confidence)
    ensures forall j :: 0 <= j < i ==> Rank(found[i].confidence) < Rank(found[j].confidence)
  {
    if |found| == 1 then 0
    else
      var init := found[..|found| - 1];
      var w := Weakest(init);
      if Rank(found[|found| - 1].confidence) < Rank(found[w].confidence) then |found| - 1 else w
  }

  predicate Better(latest: Finding, held: Finding) {
    || Rank(latest.confidence) > Rank(held.confidence)
    || (latest.confidence == held.confidence && Quality(latest.dep) > Quality(held.dep))
  }

  function Added(found: seq<Finding>, latest: Finding): seq<Finding> {
    if |found| < COLLECT_LIMIT then found + [latest]
    else
      var w := Weakest(found);
      if Rank(latest.confidence) > Rank(found[w].confidence) then found[w := latest] else found
  }

  /** The buffer after one well-formed sighting. */
  function Pushed(found: seq<Finding>, latest: Finding): seq<Finding> {
    var same := IndexOf(SameFact(latest), found);
    if same < |found| then
      if Better(latest, found[same]) then found[same := latest] else found
    else
      var named := IndexOf(SameName(latest), found);
      if named < |found| && Rank(latest.confidence) > Rank(found[named].confidence) then found[named := latest]
      else if named < |found| && Rank(latest.confidence) < Rank(found[named].confidence) then found
      else Added(found, latest)
  }

  predicate ByConfidence(a: Finding, b: Finding) {
    Rank(a.confidence) >= Rank(b.confidence)
  }

  function Reported(found: seq<Finding>): (r: seq<Finding>)
    ensures |r| <= MAX_FINDINGS
  {
    var sorted := Sort(ByConfidence, found);
    sorted[..if |sorted| < MAX_FINDINGS then |sorted| else MAX_FINDINGS]
  }

  /** A line of the log that named something, before the name is cleaned. */
  datatype Sighting = Sighting(name: Str, kind: DepKind, confidence: Confidence)

  /** Name cleaning and the package tables are parameters. */
  datatype Tables = Tables(clean: Str -> Str, packageFor: (Str, DepKind) -> (Option<Str>, bool))
  {
    predicate WellFormed(s: Sighting) {
      0 < |clean(s.name)| <= 64
    }

    function FindingOf(s: Sighting): Finding {
      var (package, certain) := packageFor(clean(s.name), s.kind);
      Finding(MissingDep(clean(s.name), s.kind, package, certain), s.confidence)
    }

    function Collected(sightings: seq<Sighting>): seq<Finding> {
      if sightings == [] then []
      else
        var before := Collected(sightings[..|sightings| - 1]);
        var last := sightings[|sightings| - 1];
        if WellFormed(last) then Pushed(before, FindingOf(last)) else before
    }

    /** The explicit facts a log establishes. */
    function ExplicitFacts(sightings: seq<Sighting>): set<Fact> {
      set s | s in sightings && s.confidence == Explicit && WellFormed(s) :: FactOf(FindingOf(s))
    }
  }

  class Collector {
    const tables: Tables
    var found: seq<Finding>

    constructor (tables: Tables)
      ensures this.tables == tables && found == []
    {
      this.tables := tables;
      found := [];
    }

    method Push(s: Sighting)
      modifies this
      ensures found == if tables.WellFormed(s) then Pushed(old(found), tables.FindingOf(s)) else old(found)
    {
      var name := tables.clean(s.name);
      if name == [] || |name| > 64 {
        return;
      }
      var (package, certain) := tables.packageFor(name, s.kind);
      var latest := Finding(MissingDep(name, s.kind, package, certain), s.confidence);
      assert latest == tables.FindingOf(s);
      var same := Position(SameFact(latest));
      if same < |found| {
        if Better(latest, found[same]) {
          found := found[same := latest];
        }
        return;
      }
      var named := Position(SameName(latest));
      if named < |found| {
        if Rank(s.confidence) > Rank(found[named].confidence) {
          found := found[named := latest];
          return;
        } else if Rank(s.confidence) < Rank(found[named].confidence) {
          return;
        }
      }
      if |found| < COLLECT_LIMIT {
        found := found + [latest];
        return;
      }
      var weakest := MinByConfidence();
      if Rank(s.confidence) > Rank(found[weakest].confidence) {
        found := found[weakest := latest];
      }
    }

    method Position(p: Finding -> bool) returns (i: nat)
      ensures i == IndexOf(p, found)
    {
      i := 0;
      while i < |found| && !p(found[i])
        invariant i <= |found|
        invariant i + IndexOf(p, found[i..]) == IndexOf(p, found)
      {
        assert found[i..][1..] == found[i + 1..];
        i := i + 1;
      }
    }

    method MinByConfidence() returns (w: nat)
      requires found != []
      ensures w == Weakest(found)
    {
      w := 0;
      for i := 1 to |found|
        invariant w == Weakest(found[..i])
      {
        assert found[..i + 1][..i] == found[..i];
        if Rank(found[i].confidence) < Rank(found[w].confidence) {
          w := i;
        }
      }
      assert found[..|found|] == found;
    }

    method Ranked() returns (deps: seq<MissingDep>)
      ensures |deps| == |Reported(found)|
      ensures forall i :: 0 <= i < |deps| ==> deps[i] == Reported(found)[i].dep
    {
      var reported := Reported(found);
      deps := seq(|reported|, i requires 0 <= i < |reported| => reported[i].dep);
    }
  }

  // ---- what the buffer keeps ----

  ghost predicate Kept(found: seq<Finding>, facts: set<Fact>) {
    && |found| <= COLLECT_LIMIT
    && (forall i, j :: 0 <= i < j < |found| ==> FactOf(found[i]) != FactOf(found[j]))
    && (forall i :: 0 <= i < |found| && found[i].confidence == Explicit ==> FactOf(found[i]) in facts)
    && (forall fact :: fact in facts ==>
          exists i :: 0 <= i < |found| && FactOf(found[i]) == fact && found[i].confidence == Explicit)
  }

  lemma {:induction false} DistinctWithin(facts: seq<Fact>, all: set<Fact>)
    requires forall i, j :: 0 <= i < j < |facts| ==> facts[i] != facts[j]
    requires forall f :: f in facts ==> f in all
    ensures |facts| <= |all|
  {
    if facts != [] {
      var init := facts[..|facts| - 1];
      var last := facts[|facts| - 1];
      assert last in all && last !in init;
      assert forall f :: f in init ==> f in facts;
      DistinctWithin(init, all - {last});
    }
  }

  /** Fewer explicit facts than entries: some entry is not explicit. */
  lemma SomeWeak(found: seq<Finding>, facts: set<Fact>)
    requires Kept(found, facts) && |facts| < |found|
    ensures exists i :: 0 <= i < |found| && found[i].confidence != Explicit
  {
    if forall i :: 0 <= i < |found| ==> found[i].confidence == Explicit {
      var keys := seq(|found|, i requires 0 <= i < |found| => FactOf(found[i]));
      DistinctWithin(keys, facts);
    }
  }

  function WithFact(facts: set<Fact>, latest: Finding): set<Fact> {
    if latest.confidence == Explicit then facts + {FactOf(latest)} else facts
  }

  /** One sighting keeps the buffer bounded, its facts unique, and every explicit fact in it. */
  lemma PushKeeps(found: seq<Finding>, facts: set<Fact>, latest: Finding)
    requires Kept(found, facts)
    requires |WithFact(facts, latest)| <= MAX_FINDINGS
    ensures Kept(Pushed(found, latest), WithFact(facts, latest))
  {
    hide Kept, FactOf, WithFact;
    var same := IndexOf(SameFact(latest), found);
    if same < |found| {
      SameFactKeeps(found, facts, latest, same);
    } else {
      NotHeld(found, latest);
      var named := IndexOf(SameName(latest), found);
      if named < |found| && Rank(latest.confidence) > Rank(found[named].confidence) {
        ReplaceWeaker(found, facts, latest, named);
      } else if named == |found| || Rank(latest.confidence) == Rank(found[named].confidence) {
        AddedKeeps(found, facts, latest);
      } else {
        WeakAddsNothing(facts, latest);
      }
    }
  }

  predicate Holds(found: seq<Finding>, fact: Fact) {
    exists i :: 0 <= i < |found| && FactOf(found[i]) == fact
  }

  lemma NotHeld(found: seq<Finding>, latest: Finding)
    requires IndexOf(SameFact(latest), found) == |found|
    ensures !Holds(found, FactOf(latest))
  {
    assert forall j :: 0 <= j < |found| ==> !SameFact(latest)(found[j]);
  }

  lemma WeakAddsNothing(facts: set<Fact>, latest: Finding)
    requires latest.confidence != Explicit
    ensures WithFact(facts, latest) == facts
  {
  }

  lemma SameFactKeeps(found: seq<Finding>, facts: set<Fact>, latest: Finding, at: nat)
    requires Kept(found, facts) && at < |found| && FactOf(found[at]) == FactOf(latest)
    ensures Kept(if Better(latest, found[at]) then found[at := latest] else found, WithFact(facts, latest))
  {
    if Better(latest, found[at]) {
      ReplaceKeeps(found, facts, latest, at);
    }
  }

  lemma ReplaceWeaker(found: seq<Finding>, facts: set<Fact>, latest: Finding, at: nat)
    requires Kept(found, facts) && at < |found| && !Holds(found, FactOf(latest))
    requires Rank(latest.confidence) > Rank(found[at].confidence)
    ensures Kept(found[at := latest], WithFact(facts, latest))
  {
    assert forall j :: 0 <= j < |found| ==> FactOf(found[j]) != FactOf(latest);
    ReplaceKeeps(found, facts, latest, at);
  }

  lemma AddedKeeps(found: seq<Finding>, facts: set<Fact>, latest: Finding)
    requires Kept(found, facts) && !Holds(found, FactOf(latest))
    requires |WithFact(facts, latest)| <= MAX_FINDINGS
    ensures Kept(Added(found, latest), WithFact(facts, latest))
  {
    assert forall j :: 0 <= j < |found| ==> FactOf(found[j]) != FactOf(latest);
    if |found| < COLLECT_LIMIT {
      AppendKeeps(found, facts, latest);
    } else {
      CardSubset(facts, WithFact(facts, latest));
      SomeWeak(found, facts);
      var w := Weakest(found);
      if Rank(latest.confidence) > Rank(found[w].confidence) {
        ReplaceWeaker(found, facts, latest, w);
      }
    }
  }

  /** Replacing an entry that is weaker, or the same fact no better told. */
  lemma ReplaceKeeps(found: seq<Finding>, facts: set<Fact>, latest: Finding, at: nat)
    requires Kept(found, facts) && at < |found| && Better(latest, found[at])
    requires forall j :: 0 <= j < |found| && j != at ==> FactOf(found[j]) != FactOf(latest)
    requires found[at].confidence != Explicit || FactOf(found[at]) == FactOf(latest)
    ensures Kept(found[at := latest], WithFact(facts, latest))
  {
    var r := found[at := latest];
    forall fact | fact in WithFact(facts, latest)
      ensures exists i :: 0 <= i < |r| && FactOf(r[i]) == fact && r[i].confidence == Explicit
    {
      if fact == FactOf(latest) && latest.confidence == Explicit {
        assert FactOf(r[at]) == fact;
      } else {
        var i :| 0 <= i < |found| && FactOf(found[i]) == fact && found[i].confidence == Explicit;
        assert i != at;
        assert r[i] == found[i];
      }
    }
  }

  lemma AppendKeeps(found: seq<Finding>, facts: set<Fact>, latest: Finding)
    requires Kept(found, facts) && |found| < COLLECT_LIMIT
    requires forall j :: 0 <= j < |found| ==> FactOf(found[j]) != FactOf(latest)
    ensures Kept(found + [latest], WithFact(facts, latest))
  {
    var r := found + [latest];
    forall fact | fact in WithFact(facts, latest)
      ensures exists i :: 0 <= i < |r| && FactOf(r[i]) == fact && r[i].confidence == Explicit
    {
      if fact in facts {
        var i :| 0 <= i < |found| && FactOf(found[i]) == fact && found[i].confidence == Explicit;
        assert r[i] == found[i];
      } else {
        assert FactOf(r[|found|]) == fact;
      }
    }
  }

  lemma {:induction false} CollectedKeeps(t: Tables, sightings: seq<Sighting>)
    requires |t.ExplicitFacts(sightings)| <= MAX_FINDINGS
    ensures Kept(t.Collected(sightings), t.ExplicitFacts(sightings))
  {
    if sightings != [] {
      var init := sightings[..|sightings| - 1];
      var last := sightings[|sightings| - 1];
      assert sightings == init + [last];
      var before, after := t.ExplicitFacts(init), t.ExplicitFacts(sightings);
      assert after == if t.WellFormed(last) then WithFact(before, t.FindingOf(last)) else before;
      CardSubset(before, after);
      CollectedKeeps(t, init);
      if t.WellFormed(last) {
        PushKeeps(t.Collected(init), before, t.FindingOf(last));
      }
    }
  }

  lemma {:induction false} CardSubset<T>(a: set<T>, b: set<T>)
    requires a <= b
    ensures |a| <= |b|
  {
    assert |b| == |a| + |b - a| by { assert b == a + (b - a); }
  }

  lemma ByConfidenceIsTotalPreorder()
    ensures TotalPreorder(ByConfidence)
  {
  }

  /** What a report says about the facts it should name. */
  ghost predicate Names(report: seq<Finding>, facts: set<Fact>) {
    && (forall fact :: fact in facts ==>
          exists i :: 0 <= i < |report| && FactOf(report[i]) == fact && report[i].confidence == Explicit)
    && Sorted(ByConfidence, report)
    && (forall i, j :: 0 <= i < j < |report| ==> FactOf(report[i]) != FactOf(report[j]))
  }

  lemma SortedReport(found: seq<Finding>, facts: set<Fact>)
    requires Kept(found, facts)
    ensures Sorted(ByConfidence, Sort(ByConfidence, found)) && Sorted(ByConfidence, Reported(found))
    ensures forall i, j :: 0 <= i < j < |Reported(found)| ==> FactOf(Reported(found)[i]) != FactOf(Reported(found)[j])
  {
    hide FactOf;
    ByConfidenceIsTotalPreorder();
    SortSorts(ByConfidence, found);
    UniqueAfterSort(found, Sort(ByConfidence, found));
  }

  lemma FactIsReported(found: seq<Finding>, facts: set<Fact>, fact: Fact)
    requires Kept(found, facts) && |facts| <= MAX_FINDINGS && fact in facts
    ensures exists i ::
      0 <= i < |Reported(found)| && FactOf(Reported(found)[i]) == fact && Reported(found)[i].confidence == Explicit
  {
    hide FactOf, Sorted;
    var sorted := Sort(ByConfidence, found);
    SortedReport(found, facts);
    var k :| 0 <= k < |found| && FactOf(found[k]) == fact && found[k].confidence == Explicit;
    SameElements(found, sorted);
    assert found[k] in sorted;
    var i :| 0 <= i < |sorted| && sorted[i] == found[k];
    ExplicitComesEarly(found, sorted, facts, i);
    assert Reported(found)[i] == sorted[i];
  }

  lemma ReportNames(found: seq<Finding>, facts: set<Fact>)
    requires Kept(found, facts) && |facts| <= MAX_FINDINGS
    ensures Names(Reported(found), facts)
  {
    hide FactOf, Sorted, Reported, Kept;
    SortedReport(found, facts);
    forall fact | fact in facts
      ensures exists i ::
        0 <= i < |Reported(found)| && FactOf(Reported(found)[i]) == fact && Reported(found)[i].confidence == Explicit
    {
      FactIsReported(found, facts, fact);
    }
  }

  /** With at most twelve explicit facts in the log, the report names every one of them,
      however many weaker sightings come before or after; it is ordered by confidence and
      names no fact twice. */
  lemma ExplicitFactsAreReported(t: Tables, sightings: seq<Sighting>)
    requires |t.ExplicitFacts(sightings)| <= MAX_FINDINGS
    ensures Names(Reported(t.Collected(sightings)), t.ExplicitFacts(sightings))
    ensures |t.Collected(sightings)| <= COLLECT_LIMIT
  {
    CollectedKeeps(t, sightings);
    ReportNames(t.Collected(sightings), t.ExplicitFacts(sightings));
  }

  lemma UniqueAfterSort(found: seq<Finding>, sorted: seq<Finding>)
    requires multiset(found) == multiset(sorted)
    requires forall i, j :: 0 <= i < j < |found| ==> FactOf(found[i]) != FactOf(found[j])
    ensures forall i, j :: 0 <= i < j < |sorted| ==> FactOf(sorted[i]) != FactOf(sorted[j])
  {
    DistinctAfterPermutation(found, sorted);
    SameElements(found, sorted);
    forall i, j | 0 <= i < j < |sorted| ensures FactOf(sorted[i]) != FactOf(sorted[j]) {
      assert sorted[i] in found && sorted[j] in found;
    }
  }

  /** An explicit finding is preceded by explicit findings only, so by fewer than twelve. */
  lemma ExplicitComesEarly(found: seq<Finding>, sorted: seq<Finding>, facts: set<Fact>, i: nat)
    requires Kept(found, facts) && multiset(found) == multiset(sorted) && Sorted(ByConfidence, sorted)
    requires i < |sorted| && sorted[i].confidence == Explicit && |facts| <= MAX_FINDINGS
    ensures i < MAX_FINDINGS
  {
    UniqueAfterSort(found, sorted);
    SameElements(found, sorted);
    var keys := seq(i + 1, j requires 0 <= j < i + 1 => FactOf(sorted[j]));
    forall f | f in keys ensures f in facts {
      var j :| 0 <= j < i + 1 && f == FactOf(sorted[j]);
      assert j < i ==> ByConfidence(sorted[j], sorted[i]);
      assert sorted[j] in found;
    }
    DistinctWithin(keys, facts);
  }

  /** Within one confidence the report keeps the order of the log. */
  lemma ReportIsStable(found: seq<Finding>, c: Confidence)
    ensures var tier := (f: Finding) => f.confidence == c;
      Filter(tier, Sort(ByConfidence, found)) == Filter(tier, found)
  {
    SortStable(ByConfidence, (f: Finding) => f.confidence == c, found);
  }

  // ---- a log with few names ----

  /** One missing thing: a library however it was asked for, a program, or what a build script wants. */
  ghost predicate SameThing(a: MissingDep, b: MissingDep) {
    && Fold(a.name) == Fold(b.name)
    && (a.kind == b.kind || (a.kind in {PkgConfig, Library, Header} && b.kind in {PkgConfig, Library, Header}))
  }

  ghost function Grade(c: Confidence): nat {
    match c
    case Crate => 0
    case Named => 1
    case Explicit => 2
  }

  /** How well a finding is told: by its evidence first, then by whether it names a package for certain. */
  ghost function Worth(f: Finding): nat {
    10 * Grade(f.confidence)
    + (if f.dep.package.None? then 0 else if f.dep.certain then 2 else 1)
  }

  ghost predicate Sighted(t: Tables, sightings: seq<Sighting>, k: nat) {
    k < |sightings| && t.WellFormed(sightings[k])
  }

  /** `f` is the first of the best tellings of its thing. */
  ghost predicate BestTelling(t: Tables, sightings: seq<Sighting>, f: Finding, k: nat) {
    && Sighted(t, sightings, k) && f == t.FindingOf(sightings[k])
    && forall j: nat :: Sighted(t, sightings, j) && SameThing(t.FindingOf(sightings[j]).dep, f.dep) ==>
      Worth(t.FindingOf(sightings[j])) <= Worth(f) && (j < k ==> Worth(t.FindingOf(sightings[j])) < Worth(f))
  }

  ghost predicate IsBest(t: Tables, sightings: seq<Sighting>, f: Finding) {
    exists k :: BestTelling(t, sightings, f, k)
  }

  /** Two sightings of one name are of one thing. */
  ghost predicate NamesApart(t: Tables, sightings: seq<Sighting>) {
    forall j: nat, k: nat :: Sighted(t, sightings, j) && Sighted(t, sightings, k) ==>
      OneThing(t.FindingOf(sightings[j]).dep, t.FindingOf(sightings[k]).dep)
  }

  ghost predicate OneThing(a: MissingDep, b: MissingDep) {
    Fold(a.name) == Fold(b.name) ==> SameThing(a, b)
  }

  ghost function SightedFacts(t: Tables, sightings: seq<Sighting>): set<Fact> {
    set s | s in sightings && t.WellFormed(s) :: FactOf(t.FindingOf(s))
  }

  ghost predicate InList(found: seq<Finding>, t: Tables, s: Sighting) {
    exists i :: 0 <= i < |found| && SameThing(found[i].dep, t.FindingOf(s).dep)
  }

  /** Everything sighted is there once, in its best telling. */
  ghost predicate AllTold(found: seq<Finding>, t: Tables, sightings: seq<Sighting>) {
    && (forall k: nat :: Sighted(t, sightings, k) ==> InList(found, t, sightings[k]))
    && (forall i :: 0 <= i < |found| ==> IsBest(t, sightings, found[i]))
    && (forall i, j :: 0 <= i < j < |found| ==> !SameThing(found[i].dep, found[j].dep))
  }

  lemma FactIsThing(a: Finding, b: Finding)
    ensures FactOf(a) == FactOf(b) <==> SameThing(a.dep, b.dep)
  {
    hide Fold;
  }

  lemma BetterIsWorth(a: Finding, b: Finding)
    ensures Better(a, b) <==> Worth(a) > Worth(b)
  {
  }

  lemma SameThingEquivalence(a: MissingDep, b: MissingDep, c: MissingDep)
    ensures SameThing(a, a) && (SameThing(a, b) ==> SameThing(b, a))
    ensures SameThing(a, b) && SameThing(b, c) ==> SameThing(a, c)
  {
    hide Fold;
  }

  /** A telling that another sighting does not beat stays the best. */
  lemma StaysBest(t: Tables, init: seq<Sighting>, last: Sighting, f: Finding, k: nat)
    requires BestTelling(t, init, f, k)
    requires t.WellFormed(last) && SameThing(t.FindingOf(last).dep, f.dep) ==> Worth(t.FindingOf(last)) <= Worth(f)
    ensures BestTelling(t, init + [last], f, k)
  {
    hide SameThing, Worth;
    forall j: nat | Sighted(t, init + [last], j) && SameThing(t.FindingOf((init + [last])[j]).dep, f.dep)
      ensures Worth(t.FindingOf((init + [last])[j])) <= Worth(f)
      ensures j < k ==> Worth(t.FindingOf((init + [last])[j])) < Worth(f)
    {
      assert j < |init| ==> Sighted(t, init, j);
    }
  }

  /** A better telling becomes the best. */
  lemma BecomesBest(t: Tables, init: seq<Sighting>, last: Sighting, f: Finding, k: nat)
    requires BestTelling(t, init, f, k) && t.WellFormed(last)
    requires SameThing(t.FindingOf(last).dep, f.dep) && Worth(t.FindingOf(last)) > Worth(f)
    ensures BestTelling(t, init + [last], t.FindingOf(last), |init|)
  {
    hide SameThing, Worth;
    var g, all := t.FindingOf(last), init + [last];
    assert Sighted(t, all, |init|);
    forall j: nat | Sighted(t, all, j) && SameThing(t.FindingOf(all[j]).dep, g.dep)
      ensures Worth(t.FindingOf(all[j])) <= Worth(g) && (j < |init| ==> Worth(t.FindingOf(all[j])) < Worth(g))
    {
      if j < |init| {
        SameThingEquivalence(t.FindingOf(all[j]).dep, g.dep, f.dep);
        assert Sighted(t, init, j);
      }
    }
  }

  lemma IsFirstTelling(t: Tables, init: seq<Sighting>, last: Sighting)
    requires t.WellFormed(last)
    requires forall j: nat :: Sighted(t, init, j) ==> !SameThing(t.FindingOf(init[j]).dep, t.FindingOf(last).dep)
    ensures BestTelling(t, init + [last], t.FindingOf(last), |init|)
  {
    hide SameThing, Worth;
    var g, all := t.FindingOf(last), init + [last];
    assert Sighted(t, all, |init|);
    forall j: nat | Sighted(t, all, j) && SameThing(t.FindingOf(all[j]).dep, g.dep)
      ensures j == |init|
    {
      assert j < |init| ==> Sighted(t, init, j);
    }
  }

  lemma BestAfter(t: Tables, init: seq<Sighting>, last: Sighting, f: Finding)
    requires IsBest(t, init, f)
    requires t.WellFormed(last) && SameThing(t.FindingOf(last).dep, f.dep) ==> Worth(t.FindingOf(last)) <= Worth(f)
    ensures IsBest(t, init + [last], f)
  {
    hide BestTelling, SameThing, Worth;
    var k :| BestTelling(t, init, f, k);
    StaysBest(t, init, last, f, k);
  }

  lemma BestInstead(t: Tables, init: seq<Sighting>, last: Sighting, f: Finding)
    requires IsBest(t, init, f) && t.WellFormed(last)
    requires SameThing(t.FindingOf(last).dep, f.dep) && Worth(t.FindingOf(last)) > Worth(f)
    ensures IsBest(t, init + [last], t.FindingOf(last))
  {
    hide BestTelling, SameThing, Worth;
    var k :| BestTelling(t, init, f, k);
    BecomesBest(t, init, last, f, k);
  }

  lemma ListedStill(found: seq<Finding>, found': seq<Finding>, t: Tables, s: Sighting)
    requires InList(found, t, s) && |found| <= |found'|
    requires forall i :: 0 <= i < |found| ==> SameThing(found'[i].dep, found[i].dep)
    ensures InList(found', t, s)
  {
    hide SameThing;
    var i :| 0 <= i < |found| && SameThing(found[i].dep, t.FindingOf(s).dep);
    SameThingEquivalence(found'[i].dep, found[i].dep, t.FindingOf(s).dep);
  }

  lemma AllListed(found: seq<Finding>, found': seq<Finding>, t: Tables, init: seq<Sighting>, last: Sighting)
    requires forall k: nat :: Sighted(t, init, k) ==> InList(found, t, init[k])
    requires |found| <= |found'| && forall i :: 0 <= i < |found| ==> SameThing(found'[i].dep, found[i].dep)
    requires t.WellFormed(last) ==> InList(found', t, last)
    ensures forall k: nat :: Sighted(t, init + [last], k) ==> InList(found', t, (init + [last])[k])
  {
    hide SameThing, InList;
    forall k: nat | Sighted(t, init + [last], k) ensures InList(found', t, (init + [last])[k]) {
      if k < |init| {
        assert Sighted(t, init, k);
        ListedStill(found, found', t, init[k]);
      }
    }
  }

  lemma SameListAgain(found: seq<Finding>)
    ensures forall i :: 0 <= i < |found| ==> SameThing(found[i].dep, found[i].dep)
  {
    hide Fold;
  }

  /** The sighting adds nothing: it is ill-formed, or its thing is told as well already. */
  lemma ToldAlready(found: seq<Finding>, t: Tables, init: seq<Sighting>, last: Sighting, at: nat)
    requires AllTold(found, t, init)
    requires t.WellFormed(last) ==> at < |found| && SameThing(t.FindingOf(last).dep, found[at].dep)
    requires t.WellFormed(last) ==> Worth(t.FindingOf(last)) <= Worth(found[at])
    ensures AllTold(found, t, init + [last])
  {
    hide SameThing, IsBest, Worth;
    if t.WellFormed(last) {
      SameThingEquivalence(t.FindingOf(last).dep, found[at].dep, found[at].dep);
    }
    SameListAgain(found);
    AllListed(found, found, t, init, last);
    hide InList;
    forall i | 0 <= i < |found| ensures IsBest(t, init + [last], found[i]) {
      if t.WellFormed(last) && SameThing(t.FindingOf(last).dep, found[i].dep) {
        SameThingEquivalence(t.FindingOf(last).dep, found[at].dep, found[i].dep);
        SameThingEquivalence(t.FindingOf(last).dep, found[i].dep, found[at].dep);
        SameThingEquivalence(found[at].dep, t.FindingOf(last).dep, found[i].dep);
        SameThingEquivalence(found[i].dep, t.FindingOf(last).dep, found[at].dep);
        assert i == at;
      }
      BestAfter(t, init, last, found[i]);
    }
  }

  lemma ToldBetter(found: seq<Finding>, t: Tables, init: seq<Sighting>, last: Sighting, at: nat)
    requires AllTold(found, t, init) && t.WellFormed(last)
    requires at < |found| && SameThing(t.FindingOf(last).dep, found[at].dep)
    requires Worth(t.FindingOf(last)) > Worth(found[at])
    ensures AllTold(found[at := t.FindingOf(last)], t, init + [last])
  {
    hide SameThing, IsBest, Worth;
    var g := t.FindingOf(last);
    var after := found[at := g];
    SameThingEquivalence(g.dep, g.dep, g.dep);
    SameListAgain(found);
    assert SameThing(after[at].dep, g.dep);
    AllListed(found, after, t, init, last);
    hide InList;
    forall i | 0 <= i < |found| && i != at
      ensures !SameThing(g.dep, found[i].dep) && !SameThing(found[i].dep, g.dep) {
      SameThingEquivalence(found[at].dep, g.dep, found[i].dep);
      SameThingEquivalence(g.dep, found[at].dep, g.dep);
      SameThingEquivalence(found[i].dep, g.dep, found[at].dep);
      SameThingEquivalence(g.dep, found[i].dep, g.dep);
    }
    forall i | 0 <= i < |after| ensures IsBest(t, init + [last], after[i]) {
      if i == at {
        BestInstead(t, init, last, found[at]);
      } else {
        BestAfter(t, init, last, found[i]);
      }
    }
  }

  lemma ToldFirst(found: seq<Finding>, t: Tables, init: seq<Sighting>, last: Sighting)
    requires AllTold(found, t, init) && t.WellFormed(last)
    requires forall i :: 0 <= i < |found| ==> !SameThing(t.FindingOf(last).dep, found[i].dep)
    ensures AllTold(found + [t.FindingOf(last)], t, init + [last])
  {
    hide SameThing, IsBest, Worth, BestTelling;
    var g := t.FindingOf(last);
    var after := found + [g];
    SameThingEquivalence(g.dep, g.dep, g.dep);
    SameListAgain(found);
    assert SameThing(after[|found|].dep, g.dep);
    AllListed(found, after, t, init, last);
    forall j: nat | Sighted(t, init, j) ensures !SameThing(t.FindingOf(init[j]).dep, g.dep) {
      NotListed(found, t, init[j], g.dep);
    }
    hide InList;
    IsFirstTelling(t, init, last);
    assert IsBest(t, init + [last], g) by { JustBest(t, init + [last], g, |init|); }
    forall i | 0 <= i < |found| ensures IsBest(t, init + [last], found[i]) && !SameThing(found[i].dep, g.dep) {
      SameThingEquivalence(found[i].dep, g.dep, g.dep);
      BestAfter(t, init, last, found[i]);
    }
  }

  lemma JustBest(t: Tables, sightings: seq<Sighting>, f: Finding, k: nat)
    requires BestTelling(t, sightings, f, k)
    ensures IsBest(t, sightings, f)
  {
  }

  lemma NotListed(found: seq<Finding>, t: Tables, s: Sighting, dep: MissingDep)
    requires InList(found, t, s)
    requires forall i :: 0 <= i < |found| ==> !SameThing(dep, found[i].dep)
    ensures !SameThing(t.FindingOf(s).dep, dep)
  {
    hide SameThing;
    var i :| 0 <= i < |found| && SameThing(found[i].dep, t.FindingOf(s).dep);
    SameThingEquivalence(found[i].dep, t.FindingOf(s).dep, dep);
    SameThingEquivalence(found[i].dep, dep, dep);
  }

  lemma ToldIsBounded(found: seq<Finding>, t: Tables, sightings: seq<Sighting>)
    requires AllTold(found, t, sightings)
    ensures |found| <= |SightedFacts(t, sightings)|
  {
    hide SameThing, InList, Worth, FactOf;
    var keys := seq(|found|, i requires 0 <= i < |found| => FactOf(found[i]));
    forall i | 0 <= i < |found| ensures keys[i] in SightedFacts(t, sightings) {
      assert IsBest(t, sightings, found[i]);
      var k: nat :| BestTelling(t, sightings, found[i], k);
      assert sightings[k] in sightings;
    }
    forall i, j | 0 <= i < j < |found| ensures keys[i] != keys[j] {
      FactIsThing(found[i], found[j]);
    }
    DistinctWithin(keys, SightedFacts(t, sightings));
  }

  lemma NobodyElseHasTheName(found: seq<Finding>, t: Tables, init: seq<Sighting>, last: Sighting)
    requires AllTold(found, t, init) && t.WellFormed(last) && NamesApart(t, init + [last])
    ensures forall i :: 0 <= i < |found| && SameName(t.FindingOf(last))(found[i]) ==>
      SameThing(found[i].dep, t.FindingOf(last).dep)
  {
    hide SameThing, InList, Worth, Fold;
    var all, g := init + [last], t.FindingOf(last);
    forall i | 0 <= i < |found| && SameName(g)(found[i]) ensures SameThing(found[i].dep, g.dep) {
      assert IsBest(t, init, found[i]);
      var k: nat :| BestTelling(t, init, found[i], k);
      assert all[k] == init[k] && Sighted(t, all, k) && Sighted(t, all, |init|);
      assert OneThing(t.FindingOf(all[k]).dep, t.FindingOf(all[|init|]).dep);
    }
  }

  /** Looking for the fact finds the thing. */
  lemma FactFound(found: seq<Finding>, g: Finding)
    ensures var same := IndexOf(SameFact(g), found);
      && (same < |found| ==> SameThing(g.dep, found[same].dep))
      && (same == |found| ==> forall i :: 0 <= i < |found| ==> !SameThing(g.dep, found[i].dep))
  {
    hide SameThing, FactOf;
    var same := IndexOf(SameFact(g), found);
    forall i | 0 <= i < |found| ensures SameFact(g)(found[i]) <==> SameThing(g.dep, found[i].dep) {
      FactIsThing(found[i], g);
      SameThingEquivalence(found[i].dep, g.dep, g.dep);
      SameThingEquivalence(g.dep, found[i].dep, g.dep);
    }
  }

  /** A thing not held yet: against the first entry of its name the better evidence wins outright and
      equal evidence keeps both; a full buffer gives up its first weakest entry, for better evidence only. */
  lemma PushedWhenNew(found: seq<Finding>, latest: Finding, named: nat, weakest: nat)
    requires forall i :: 0 <= i < |found| ==> !SameThing(latest.dep, found[i].dep)
    requires named <= |found| && forall j :: 0 <= j < named ==> Fold(found[j].dep.name) != Fold(latest.dep.name)
    requires named < |found| ==> Fold(found[named].dep.name) == Fold(latest.dep.name)
    requires weakest < |found| || found == []
    requires forall j :: 0 <= j < |found| ==> Grade(found[weakest].confidence) <= Grade(found[j].confidence)
    requires forall j :: 0 <= j < weakest && j < |found| ==>
      Grade(found[weakest].confidence) < Grade(found[j].confidence)
    ensures named < |found| && Grade(latest.confidence) > Grade(found[named].confidence) ==>
      Pushed(found, latest) == found[named := latest]
    ensures named < |found| && Grade(latest.confidence) < Grade(found[named].confidence) ==>
      Pushed(found, latest) == found
    ensures named == |found| || Grade(latest.confidence) == Grade(found[named].confidence) ==>
      Pushed(found, latest) ==
        if |found| < 48 then found + [latest]
        else if Grade(latest.confidence) > Grade(found[weakest].confidence) then found[weakest := latest]
        else found
  {
    FactFound(found, latest);
    forall j | 0 <= j < named ensures !SameName(latest)(found[j]) {
    }
    assert IndexOf(SameName(latest), found) == named;
    hide FactOf, Fold, SameThing;
    if found != [] {
      assert Weakest(found) == weakest;
    }
  }

  lemma NameNotFound(found: seq<Finding>, t: Tables, init: seq<Sighting>, last: Sighting)
    requires AllTold(found, t, init) && t.WellFormed(last) && NamesApart(t, init + [last])
    requires forall i :: 0 <= i < |found| ==> !SameThing(t.FindingOf(last).dep, found[i].dep)
    ensures IndexOf(SameName(t.FindingOf(last)), found) == |found|
  {
    var g := t.FindingOf(last);
    NobodyElseHasTheName(found, t, init, last);
    hide AllTold, SameThing, NamesApart, Fold;
    forall i | 0 <= i < |found| ensures !SameName(g)(found[i]) {
      SameThingEquivalence(found[i].dep, g.dep, g.dep);
    }
  }

  lemma PushTells(found: seq<Finding>, t: Tables, init: seq<Sighting>, last: Sighting)
    requires AllTold(found, t, init) && t.WellFormed(last) && NamesApart(t, init + [last])
    requires |found| < COLLECT_LIMIT
    ensures AllTold(Pushed(found, t.FindingOf(last)), t, init + [last])
  {
    hide AllTold, SameThing, NamesApart, Worth, Better, FactOf, Fold, SameFact, SameName, IndexOf;
    var g := t.FindingOf(last);
    FactFound(found, g);
    var same := IndexOf(SameFact(g), found);
    if same < |found| {
      BetterIsWorth(g, found[same]);
      if Better(g, found[same]) {
        ToldBetter(found, t, init, last, same);
      } else {
        ToldAlready(found, t, init, last, same);
      }
    } else {
      NameNotFound(found, t, init, last);
      ToldFirst(found, t, init, last);
    }
  }

  lemma FewerNames(t: Tables, init: seq<Sighting>, last: Sighting)
    ensures |SightedFacts(t, init)| <= |SightedFacts(t, init + [last])|
    ensures NamesApart(t, init + [last]) ==> NamesApart(t, init)
  {
    hide FactOf, OneThing;
    CardSubset(SightedFacts(t, init), SightedFacts(t, init + [last]));
    if NamesApart(t, init + [last]) {
      forall j: nat, k: nat | Sighted(t, init, j) && Sighted(t, init, k)
        ensures OneThing(t.FindingOf(init[j]).dep, t.FindingOf(init[k]).dep) {
        assert Sighted(t, init + [last], j) && Sighted(t, init + [last], k);
      }
    }
  }

  lemma {:induction false} CollectedTells(t: Tables, sightings: seq<Sighting>)
    requires |SightedFacts(t, sightings)| <= MAX_FINDINGS && NamesApart(t, sightings)
    ensures AllTold(t.Collected(sightings), t, sightings)
  {
    if sightings != [] {
      var init, last := sightings[..|sightings| - 1], sightings[|sightings| - 1];
      assert sightings == init + [last];
      FewerNames(t, init, last);
      CollectedTells(t, init);
      hide SightedFacts, NamesApart;
      ToldIsBounded(t.Collected(init), t, init);
      hide AllTold, SameThing, Pushed;
      if t.WellFormed(last) {
        PushTells(t.Collected(init), t, init, last);
      } else {
        ToldAlready(t.Collected(init), t, init, last, 0);
      }
    }
  }

  /** Where at most twelve things are sighted and no two share a name, the report holds every one of
      them exactly once, in the first of its best tellings, and nothing else. */
  lemma FewNamesAreAllReported(t: Tables, sightings: seq<Sighting>)
    requires |SightedFacts(t, sightings)| <= MAX_FINDINGS && NamesApart(t, sightings)
    ensures AllTold(Reported(t.Collected(sightings)), t, sightings)
  {
    CollectedTells(t, sightings);
    var found := t.Collected(sightings);
    ToldIsBounded(found, t, sightings);
    ShortReport(found);
    hide *;
    ToldInAnyOrder(found, Reported(found), t, sightings);
  }

  lemma ShortReport(found: seq<Finding>)
    requires |found| <= MAX_FINDINGS
    ensures multiset(Reported(found)) == multiset(found)
  {
    hide Sort;
    var sorted := Sort(ByConfidence, found);
    assert sorted[..|sorted|] == sorted;
  }

  lemma ToldInAnyOrder(a: seq<Finding>, b: seq<Finding>, t: Tables, sightings: seq<Sighting>)
    requires AllTold(a, t, sightings) && multiset(a) == multiset(b)
    ensures AllTold(b, t, sightings)
  {
    hide SameThing, IsBest;
    SameElements(a, b);
    forall k: nat | Sighted(t, sightings, k) ensures InList(b, t, sightings[k]) {
      var i :| 0 <= i < |a| && SameThing(a[i].dep, t.FindingOf(sightings[k]).dep);
      assert a[i] in b;
    }
    hide InList;
    forall i | 0 <= i < |a| ensures SameThing(a[i].dep, a[i].dep) {
      SameThingEquivalence(a[i].dep, a[i].dep, a[i].dep);
    }
    DistinctAfterPermutation(a, b);
    forall i | 0 <= i < |b| ensures IsBest(t, sightings, b[i]) {
      assert b[i] in b;
      var p :| 0 <= p < |a| && a[p] == b[i];
    }
    forall i, j | 0 <= i < j < |b| ensures !SameThing(b[i].dep, b[j].dep) {
      assert b[i] in b && b[j] in b;
      var p :| 0 <= p < |a| && a[p] == b[i];
      var q :| 0 <= q < |a| && a[q] == b[j];
      SameThingEquivalence(a[p].dep, a[q].dep, a[p].dep);
    }
  }
}
