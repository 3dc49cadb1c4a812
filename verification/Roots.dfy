/** The multi-root layout (crates/rc-core/src/roots.rs). */
module Roots {
  import opened Text
  import opened Sorting
  import opened Paths

  const MAX_MOUNT_DEPTH: nat := 8

  datatype RootMount = RootMount(path: Path, mount: Str, primary: bool, nested: bool)

  datatype Layout = Layout(anchor: Path, roots: seq<RootMount>)

  datatype LayoutError =
    | NotUnderAnchor(path: Path)
    | TooDeep(path: Path, depth: nat)
    | UnusableComponent(path: Path)
    | NoRoots

  // ---- the pieces, as functions ----

  /** `unique`: the primary, then each extra the first time it is seen. */
  function Unique(primary: Path, extras: seq<Path>): (r: seq<Path>)
    ensures r != [] && r[0] == primary
    ensures forall p :: p in r <==> p == primary || p in extras
    ensures forall i, j :: 0 <= i < j < |r| ==> r[i] != r[j]
  {
    if extras == [] then [primary]
    else
      var init := extras[..|extras| - 1];
      var last := extras[|extras| - 1];
      assert extras == init + [last];
      var before := Unique(primary, init);
      if last in before then before else before + [last]
  }

  /** Inside another of the given directories. */
  predicate Nested(p: Path, all: seq<Path>) {
    exists o :: o in all && o != p && StartsWith(p, o)
  }

  function OutermostOf(some: seq<Path>, all: seq<Path>): (r: seq<Path>)
    ensures forall p :: p in r <==> p in some && !Nested(p, all)
  {
    if some == [] then []
    else
      var before := OutermostOf(some[..|some| - 1], all);
      var last := some[|some| - 1];
      assert some == some[..|some| - 1] + [last];
      if Nested(last, all) then before else before + [last]
  }

  function TwoWay(a: Path, b: Path): Option<Path> {
    var out := a[..Shared(a, b)];
    if out == [] then None else Some(out)
  }

  function CommonFrom(acc: Path, paths: seq<Path>): Option<Path>
    decreases |paths|
  {
    if paths == [] then Some(acc)
    else
      match TwoWay(acc, paths[0])
      case None => None
      case Some(next) => CommonFrom(next, paths[1..])
  }

  function CommonAncestor(paths: seq<Path>): Option<Path> {
    if paths == [] then None else CommonFrom(paths[0], paths[1..])
  }

  predicate Usable(c: Component) {
    c.Normal? && c.name != [] && SLASH !in c.name && BACKSLASH !in c.name
  }

  function MountFor(anchor: Path, path: Path): Result<Str, LayoutError> {
    if !StartsWith(path, anchor) then Err(NotUnderAnchor(path))
    else
      var rel := path[|anchor|..];
      if exists c :: c in rel && !Usable(c) then Err(UnusableComponent(path))
      else if |rel| > MAX_MOUNT_DEPTH then Err(TooDeep(path, |rel|))
      else Ok(Join(Texts(rel), [SLASH]))
  }

  function MountAll(primary: Path, anchor: Path, some: seq<Path>, all: seq<Path>): Result<seq<RootMount>, LayoutError> {
    if some == [] then Ok([])
    else
      match MountAll(primary, anchor, some[..|some| - 1], all)
      case Err(e) => Err(e)
      case Ok(before) =>
        var path := some[|some| - 1];
        match MountFor(anchor, path)
        case Err(e) => Err(e)
        case Ok(mount) => Ok(before + [RootMount(path, mount, path == primary, Nested(path, all))])
  }

  /** `matches('/').count()`. */
  function Slashes(s: Str): nat {
    if s == [] then 0 else (if s[0] == SLASH then 1 else 0) + Slashes(s[1..])
  }

  predicate OutermostFirst(a: RootMount, b: RootMount) {
    || Slashes(a.mount) < Slashes(b.mount)
    || (Slashes(a.mount) == Slashes(b.mount) && Leq(a.mount, b.mount))
  }

  function LayoutOf(primary: Path, extras: seq<Path>): Result<Layout, LayoutError> {
    var unique := Unique(primary, extras);
    match CommonAncestor(OutermostOf(unique, unique))
    case None => Err(NoRoots)
    case Some(anchor) =>
      match MountAll(primary, anchor, unique, unique)
      case Err(e) => Err(e)
      case Ok(roots) => Ok(Layout(anchor, Sort(OutermostFirst, roots)))
  }

  // ---- the code ----

  method TwoWayAncestor(a: Path, b: Path) returns (r: Option<Path>)
    ensures r == TwoWay(a, b)
  {
    var out: Path := [];
    var i := 0;
    while i < |a| && i < |b| && a[i] == b[i]
      invariant i <= |a| && i <= |b| && out == a[..i]
      invariant i + Shared(a[i..], b[i..]) == Shared(a, b)
    {
      out := out + [a[i]];
      assert a[i..][1..] == a[i + 1..] && b[i..][1..] == b[i + 1..];
      i := i + 1;
    }
    r := if out == [] then None else Some(out);
  }

  method CommonAncestorOf(paths: seq<Path>) returns (r: Option<Path>)
    ensures r == CommonAncestor(paths)
  {
    if paths == [] {
      return None;
    }
    var acc := paths[0];
    for i := 1 to |paths|
      invariant CommonFrom(acc, paths[i..]) == CommonFrom(paths[0], paths[1..])
    {
      assert paths[i..][1..] == paths[i + 1..];
      var next := TwoWayAncestor(acc, paths[i]);
      if next == None {
        return None;
      }
      acc := next.value;
    }
    r := Some(acc);
  }

  method MountOf(anchor: Path, path: Path) returns (r: Result<Str, LayoutError>)
    ensures r == MountFor(anchor, path)
  {
    if !StartsWith(path, anchor) {
      return Err(NotUnderAnchor(path));
    }
    var rel := path[|anchor|..];
    var parts: seq<Str> := [];
    for i := 0 to |rel|
      invariant forall c :: c in rel[..i] ==> Usable(c)
      invariant parts == Texts(rel)[..i]
    {
      match rel[i]
      case Normal(text) =>
        if text == [] || SLASH in text || BACKSLASH in text {
          assert rel[i] in rel && !Usable(rel[i]);
          return Err(UnusableComponent(path));
        }
        parts := parts + [text];
      case _ =>
        assert rel[i] in rel && !Usable(rel[i]);
        return Err(UnusableComponent(path));
    }
    assert rel[..|rel|] == rel && parts == Texts(rel);
    if |parts| > MAX_MOUNT_DEPTH {
      return Err(TooDeep(path, |parts|));
    }
    r := Ok(Join(parts, [SLASH]));
  }

  method Compute(primary: Path, extras: seq<Path>) returns (r: Result<Layout, LayoutError>)
    ensures r == LayoutOf(primary, extras)
    ensures r.Ok? ==> Arranged(r.value, primary, extras)
    ensures r.Err? ==> Unplaceable(r.error, primary, extras)
  {
    hide *;
    LayoutMeans(primary, extras);
    r := LayOut(primary, extras);
  }

  /** Its steps: anchor, mounts, order. */
  method LayOut(primary: Path, extras: seq<Path>) returns (r: Result<Layout, LayoutError>)
    ensures r == LayoutOf(primary, extras)
  {
    hide OutermostOf, CommonAncestor, Nested, Sort, MountFor;
    var unique := [primary];
    for i := 0 to |extras|
      invariant unique == Unique(primary, extras[..i])
    {
      assert extras[..i + 1][..i] == extras[..i];
      if extras[i] !in unique {
        unique := unique + [extras[i]];
      }
    }
    assert extras[..|extras|] == extras;
    var common := CommonAncestorOf(OutermostOf(unique, unique));
    if common == None {
      return Err(NoRoots);
    }
    var anchor := common.value;
    var roots := [];
    for i := 0 to |unique|
      invariant MountAll(primary, anchor, unique[..i], unique) == Ok(roots)
    {
      assert unique[..i + 1][..i] == unique[..i];
      var path := unique[i];
      var mount := MountOf(anchor, path);
      if mount.Err? {
        MountAllFails(primary, anchor, unique, i + 1);
        return Err(mount.error);
      }
      var nested := Nested(path, unique);
      roots := roots + [RootMount(path, mount.value, path == primary, nested)];
    }
    assert unique[..|unique|] == unique;
    r := Ok(Layout(anchor, Sort(OutermostFirst, roots)));
  }

  lemma {:induction false} MountAllFails(primary: Path, anchor: Path, all: seq<Path>, i: nat)
    requires i <= |all| && MountAll(primary, anchor, all[..i], all).Err?
    ensures MountAll(primary, anchor, all, all) == MountAll(primary, anchor, all[..i], all)
    decreases |all| - i
  {
    if i < |all| {
      assert all[..i + 1][..i] == all[..i];
      MountAllFails(primary, anchor, all, i + 1);
    } else {
      assert all[..i] == all;
    }
  }

  /** `Layout::enclosing`: the nearest earlier root this one lies in. */
  function Enclosing(roots: seq<RootMount>, index: nat): (r: Option<nat>)
    requires index < |roots|
    ensures r.Some? ==> r.value < index && StartsWith(roots[index].path, roots[r.value].path)
    ensures forall k :: (if r.Some? then r.value else -1) < k < index ==> !StartsWith(roots[index].path, roots[k].path)
  {
    EnclosingBelow(roots, index, index)
  }

  function EnclosingBelow(roots: seq<RootMount>, index: nat, below: nat): (r: Option<nat>)
    requires below <= index < |roots|
    ensures r.Some? ==> r.value < below && StartsWith(roots[index].path, roots[r.value].path)
    ensures forall k :: (if r.Some? then r.value else -1) < k < below ==> !StartsWith(roots[index].path, roots[k].path)
  {
    if below == 0 then None
    else if StartsWith(roots[index].path, roots[below - 1].path) then Some(below - 1)
    else EnclosingBelow(roots, index, below - 1)
  }

  /** `anchored`. */
  function Anchored(mount: Str, path: Str): Str {
    if mount == [] then path else mount + [SLASH] + path
  }

  lemma AnchoredInjective(mount: Str, a: Str, b: Str)
    requires Anchored(mount, a) == Anchored(mount, b)
    ensures a == b
  {
    if mount != [] {
      assert Anchored(mount, a)[|mount| + 1..] == a;
      assert Anchored(mount, b)[|mount| + 1..] == b;
    }
  }

  // ---- the anchor ----

  ghost predicate Below(q: Path, paths: seq<Path>) {
    forall p :: p in paths ==> q <= p
  }

  lemma SharedIsGreatest(q: Path, a: Path, b: Path)
    requires q <= a && q <= b
    ensures |q| <= Shared(a, b) && q <= a[..Shared(a, b)]
  {
    assert forall k :: 0 <= k < |q| ==> a[k] == b[k];
  }

  lemma {:induction false} CommonFromIsGreatest(acc: Path, paths: seq<Path>, q: Path)
    ensures var r := CommonFrom(acc, paths);
      && (r.Some? ==> r.value <= acc && Below(r.value, paths))
      && (q != [] && q <= acc && Below(q, paths) ==> r.Some? && q <= r.value)
    decreases |paths|
  {
    if paths != [] {
      assert paths == [paths[0]] + paths[1..];
      var next := TwoWay(acc, paths[0]);
      if q <= acc && q <= paths[0] { SharedIsGreatest(q, acc, paths[0]); }
      if next.Some? { CommonFromIsGreatest(next.value, paths[1..], q); }
      assert paths[0] in paths;
      assert forall p :: p in paths[1..] ==> p in paths;
    }
  }

  lemma CommonAncestorIsGreatest(paths: seq<Path>, q: Path)
    ensures var r := CommonAncestor(paths);
      && (r.Some? ==> Below(r.value, paths))
      && (paths != [] && q != [] && Below(q, paths) ==> r.Some? && q <= r.value)
  {
    if paths != [] {
      assert paths == [paths[0]] + paths[1..];
      CommonFromIsGreatest(paths[0], paths[1..], q);
      assert paths[0] in paths;
      assert forall p :: p in paths[1..] ==> p in paths;
    }
  }

  /** Every directory lies in an outermost one. */
  lemma {:induction false} OutermostCovers(p: Path, all: seq<Path>)
    requires p in all
    ensures exists o :: o in OutermostOf(all, all) && o <= p
    decreases |p|
  {
    if Nested(p, all) {
      var o :| o in all && o != p && StartsWith(p, o);
      assert p[..|p|] == p;
      OutermostCovers(o, all);
    } else {
      assert p in OutermostOf(all, all);
    }
  }

  /** The anchor is the greatest common ancestor of *all* the roots, though only the outermost
      ones are folded; there is one exactly when the roots share a component at all. */
  lemma AnchorIsGreatest(primary: Path, extras: seq<Path>, q: Path)
    ensures var all := Unique(primary, extras);
      var r := CommonAncestor(OutermostOf(all, all));
      && (r.Some? ==> Below(r.value, all))
      && (q != [] && Below(q, all) ==> r.Some? && q <= r.value)
  {
    var all := Unique(primary, extras);
    var outer := OutermostOf(all, all);
    CommonAncestorIsGreatest(outer, q);
    OutermostCovers(primary, all);
    assert outer != [];
    var r := CommonAncestor(outer);
    if r.Some? {
      forall p | p in all ensures r.value <= p {
        OutermostCovers(p, all);
        var o :| o in outer && o <= p;
      }
    }
  }

  // ---- mounts ----

  /** The roots a layout lists are the given directories, each once, each with its mount. */
  lemma {:induction false} MountAllEntries(primary: Path, anchor: Path, some: seq<Path>, all: seq<Path>)
    requires MountAll(primary, anchor, some, all).Ok?
    ensures var roots := MountAll(primary, anchor, some, all).value;
      && |roots| == |some|
      && forall k :: 0 <= k < |some| ==> Describes(roots[k], some[k], primary, anchor, all)
  {
    if some != [] {
      MountAllEntries(primary, anchor, some[..|some| - 1], all);
    }
  }

  ghost predicate Describes(root: RootMount, path: Path, primary: Path, anchor: Path, all: seq<Path>) {
    && root.path == path
    && root.primary == (path == primary)
    && root.nested == Nested(path, all)
    && MountFor(anchor, path) == Ok(root.mount)
  }

  lemma {:induction false} SlashesConcat(a: Str, b: Str)
    ensures Slashes(a + b) == Slashes(a) + Slashes(b)
  {
    if a == [] {
      assert a + b == b;
    } else {
      assert (a + b)[1..] == a[1..] + b;
      SlashesConcat(a[1..], b);
    }
  }

  lemma {:induction false} NoSlashes(s: Str)
    requires SLASH !in s
    ensures Slashes(s) == 0
  {
    if s != [] { NoSlashes(s[1..]); }
  }

  lemma {:induction false} SlashesOfJoin(parts: seq<Str>)
    requires forall p :: p in parts ==> SLASH !in p
    ensures Slashes(Join(parts, [SLASH])) == (if parts == [] then 0 else |parts| - 1)
  {
    if |parts| == 1 {
      NoSlashes(parts[0]);
    } else if |parts| > 1 {
      assert forall p :: p in parts[1..] ==> p in parts;
      SlashesOfJoin(parts[1..]);
      NoSlashes(parts[0]);
      assert Slashes([SLASH]) == 1;
      SlashesConcat(parts[0], [SLASH]);
      SlashesConcat(parts[0] + [SLASH], Join(parts[1..], [SLASH]));
    }
  }

  lemma MountShape(anchor: Path, path: Path)
    requires MountFor(anchor, path).Ok?
    ensures StartsWith(path, anchor)
    ensures var rel, mount := path[|anchor|..], MountFor(anchor, path).value;
      && (forall c :: c in rel ==> Usable(c))
      && mount == Join(Texts(rel), [SLASH])
      && Slashes(mount) == (if rel == [] then 0 else |rel| - 1)
      && (|rel| == 1 ==> mount != [])
      && (rel == [] ==> mount == [])
  {
    var rel := path[|anchor|..];
    forall t | t in Texts(rel) ensures SLASH !in t {
      var k :| 0 <= k < |rel| && Texts(rel)[k] == t;
      assert rel[k] in rel && Usable(rel[k]);
    }
    SlashesOfJoin(Texts(rel));
    if |rel| == 1 {
      assert rel[0] in rel && Usable(rel[0]);
    }
  }

  /** Sorting by slash count and then by name puts a directory strictly before anything inside
      it. */
  lemma AncestorSortsFirst(outer: RootMount, inner: RootMount, anchor: Path)
    requires MountFor(anchor, outer.path) == Ok(outer.mount)
    requires MountFor(anchor, inner.path) == Ok(inner.mount)
    requires outer.path <= inner.path && outer.path != inner.path
    ensures !OutermostFirst(inner, outer)
  {
    MountShape(anchor, outer.path);
    MountShape(anchor, inner.path);
    assert inner.path[..|inner.path|] == inner.path;
    assert |outer.path| < |inner.path|;
  }

  lemma OutermostFirstIsTotalPreorder()
    ensures TotalPreorder(OutermostFirst)
  {
    forall x, y ensures OutermostFirst(x, y) || OutermostFirst(y, x) {
      LeqTotal(x.mount, y.mount);
    }
    forall x, y, z | OutermostFirst(x, y) && OutermostFirst(y, z) ensures OutermostFirst(x, z) {
      if Leq(x.mount, y.mount) && Leq(y.mount, z.mount) { LeqTransitive(x.mount, y.mount, z.mount); }
    }
  }

  /** A well-laid-out set of directories: what every successful computation returns. */
  ghost predicate LaidOut(layout: Layout, primary: Path, all: seq<Path>) {
    && Below(layout.anchor, all)
    && |layout.roots| == |all|
    && (forall r :: r in layout.roots ==> r.path in all && Describes(r, r.path, primary, layout.anchor, all))
    && (forall p :: p in all ==> exists r :: r in layout.roots && r.path == p)
    && (forall i, j :: 0 <= i < j < |layout.roots| ==> layout.roots[i].path != layout.roots[j].path)
    && (forall i, j :: 0 <= i < |layout.roots| && 0 <= j < |layout.roots| && Encloses(layout.roots, i, j) ==> i < j)
  }

  /** Root `i` is another root that `j` lies in. */
  predicate Encloses(roots: seq<RootMount>, i: nat, j: nat)
    requires i < |roots| && j < |roots|
  {
    i != j && roots[i].path <= roots[j].path
  }

  /** Each directory appears exactly once, with its mount; the one primary is flagged; and a
      root comes before everything inside it. */
  lemma LayoutIsLaidOut(primary: Path, extras: seq<Path>)
    requires LayoutOf(primary, extras).Ok?
    ensures LaidOut(LayoutOf(primary, extras).value, primary, Unique(primary, extras))
  {
    hide Encloses, Describes;
    var all := Unique(primary, extras);
    var layout := LayoutOf(primary, extras).value;
    var unsorted := MountAll(primary, layout.anchor, all, all).value;
    AnchorIsGreatest(primary, extras, []);
    MountAllEntries(primary, layout.anchor, all, all);
    OutermostFirstIsTotalPreorder();
    SortSorts(OutermostFirst, unsorted);
    EntriesAfterSort(unsorted, layout, primary, all);
    SortedAncestorsFirst(layout, primary, all);
  }

  lemma EntriesAfterSort(unsorted: seq<RootMount>, layout: Layout, primary: Path, all: seq<Path>)
    requires multiset(unsorted) == multiset(layout.roots) && |unsorted| == |all|
    requires forall k :: 0 <= k < |all| ==> Describes(unsorted[k], all[k], primary, layout.anchor, all)
    requires forall i, j :: 0 <= i < j < |all| ==> all[i] != all[j]
    ensures |layout.roots| == |all|
    ensures forall r :: r in layout.roots ==> r.path in all && Describes(r, r.path, primary, layout.anchor, all)
    ensures forall p :: p in all ==> exists r :: r in layout.roots && r.path == p
    ensures forall i, j :: 0 <= i < j < |layout.roots| ==> layout.roots[i].path != layout.roots[j].path
  {
    SameSize(unsorted, layout.roots);
    SameElements(unsorted, layout.roots);
    forall r | r in layout.roots ensures r.path in all && Describes(r, r.path, primary, layout.anchor, all) {
      var k :| 0 <= k < |unsorted| && unsorted[k] == r;
    }
    forall p | p in all ensures exists r :: r in layout.roots && r.path == p {
      var k :| 0 <= k < |all| && all[k] == p;
      assert unsorted[k] in layout.roots;
    }
    PathsStayDistinct(unsorted, layout.roots);
  }

  lemma SortedAncestorsFirst(layout: Layout, primary: Path, all: seq<Path>)
    requires Sorted(OutermostFirst, layout.roots)
    requires forall r :: r in layout.roots ==> Describes(r, r.path, primary, layout.anchor, all)
    requires forall i, j :: 0 <= i < j < |layout.roots| ==> layout.roots[i].path != layout.roots[j].path
    ensures forall i, j :: 0 <= i < |layout.roots| && 0 <= j < |layout.roots| && Encloses(layout.roots, i, j) ==> i < j
  {
    forall i, j | 0 <= i < |layout.roots| && 0 <= j < |layout.roots| && Encloses(layout.roots, i, j)
      ensures i < j
    {
      assert layout.roots[i] in layout.roots && layout.roots[j] in layout.roots;
      AncestorSortsFirst(layout.roots[i], layout.roots[j], layout.anchor);
    }
  }

  lemma PathsStayDistinct(a: seq<RootMount>, b: seq<RootMount>)
    requires multiset(a) == multiset(b)
    requires forall i, j :: 0 <= i < j < |a| ==> a[i].path != a[j].path
    ensures forall i, j :: 0 <= i < j < |b| ==> b[i].path != b[j].path
  {
    DistinctAfterPermutation(a, b);
    SameElements(a, b);
    forall i, j | 0 <= i < j < |b| ensures b[i].path != b[j].path {
      assert b[i] in a && b[j] in a;
    }
  }

  /** `enclosing` answers for a root exactly when `nested` is set, and then with the deepest
      other root it lies in. */
  lemma EnclosingIsDeepest(layout: Layout, primary: Path, all: seq<Path>, index: nat)
    requires LaidOut(layout, primary, all) && index < |layout.roots|
    ensures var e := Enclosing(layout.roots, index);
      && (e.Some? <==> layout.roots[index].nested)
      && (e.Some? ==> Encloses(layout.roots, e.value, index))
      && (e.Some? ==> forall k :: 0 <= k < |layout.roots| && Encloses(layout.roots, k, index) ==>
            layout.roots[k].path <= layout.roots[e.value].path)
  {
    hide Describes;
    var roots := layout.roots;
    var e := Enclosing(roots, index);
    NestedIffEnclosed(layout, primary, all, index);
    if e.Some? {
      assert StartsWith(roots[index].path, roots[e.value].path);
      assert Encloses(roots, e.value, index);
    }
    forall k | 0 <= k < |roots| && Encloses(roots, k, index)
      ensures e.Some? && k <= e.value && roots[k].path <= roots[e.value].path
    {
      assert k < index;
      assert StartsWith(roots[index].path, roots[k].path);
      DeeperIsLonger(layout, primary, all, k, e.value, index);
    }
  }

  lemma NestedIffEnclosed(layout: Layout, primary: Path, all: seq<Path>, index: nat)
    requires LaidOut(layout, primary, all) && index < |layout.roots|
    ensures layout.roots[index].nested <==> exists k :: 0 <= k < |layout.roots| && Encloses(layout.roots, k, index)
  {
    var roots := layout.roots;
    var me := roots[index];
    assert me in roots;
    if me.nested {
      var o :| o in all && o != me.path && StartsWith(me.path, o);
      var r :| r in roots && r.path == o;
      var k :| 0 <= k < |roots| && roots[k] == r;
      assert Encloses(roots, k, index);
    }
    if k :| 0 <= k < |roots| && Encloses(roots, k, index) {
      assert roots[k] in roots;
      assert StartsWith(me.path, roots[k].path);
    }
  }

  /** Of two directories enclosing a third, the one listed later lies in the other. */
  lemma DeeperIsLonger(layout: Layout, primary: Path, all: seq<Path>, k: nat, e: nat, index: nat)
    requires LaidOut(layout, primary, all) && k <= e < index < |layout.roots|
    requires Encloses(layout.roots, k, index) && StartsWith(layout.roots[index].path, layout.roots[e].path)
    ensures layout.roots[k].path <= layout.roots[e].path
  {
    PrefixesAreComparable(layout.roots[k].path, layout.roots[e].path, layout.roots[index].path);
    assert k != e ==> !Encloses(layout.roots, e, k);
  }

  lemma PrefixesAreComparable(a: Path, b: Path, p: Path)
    requires a <= p && b <= p
    ensures a <= b || b <= a
  {
  }

  /** Relative positions survive the move into the container: one root is reached from another
      by the same text locally and between their mounts. */
  lemma RelativePositionsKept(layout: Layout, primary: Path, all: seq<Path>, i: nat, j: nat)
    requires LaidOut(layout, primary, all) && i < |layout.roots| && j < |layout.roots|
    requires forall p :: p in all ==> PathOk(p)
    ensures RelativePath(layout.roots[i].path, layout.roots[j].path) ==
      RelativePath(Parse(layout.roots[i].mount), Parse(layout.roots[j].mount))
  {
    var a, b := layout.roots[i], layout.roots[j];
    assert a in layout.roots && b in layout.roots;
    MountParses(layout.anchor, a.path);
    MountParses(layout.anchor, b.path);
    var ra, rb := a.path[|layout.anchor|..], b.path[|layout.anchor|..];
    assert a.path == layout.anchor + ra && b.path == layout.anchor + rb;
    RelativeUnderPrefix(layout.anchor, ra, rb);
  }

  lemma MountParses(anchor: Path, path: Path)
    requires MountFor(anchor, path).Ok? && PathOk(path)
    ensures StartsWith(path, anchor) && Parse(MountFor(anchor, path).value) == path[|anchor|..]
  {
    MountShape(anchor, path);
    var rel := path[|anchor|..];
    forall c | c in rel ensures c.Normal? && c in path {
      assert path == path[..|anchor|] + rel;
    }
    hide MountFor, Parse, Join;
    ParseOfJoin(rel);
  }

  /** Every component below the common ancestor can stand in a path of the manifest, and there are
      at most eight. */
  predicate Mountable(anchor: Path, path: Path) {
    && |anchor| <= |path| <= |anchor| + MAX_MOUNT_DEPTH
    && forall c :: c in path[|anchor|..] ==> Usable(c)
  }

  lemma MountableExactly(anchor: Path, path: Path)
    requires StartsWith(path, anchor)
    ensures MountFor(anchor, path).Ok? <==> Mountable(anchor, path)
  {
  }

  /** `NotUnderAnchor` is never reported, and the other refusals say exactly when: some
      directory has an unusable component, or lies too deep, below the common ancestor. */
  lemma RefusalsAreExact(primary: Path, extras: seq<Path>)
    ensures var all := Unique(primary, extras);
      var common := CommonAncestor(OutermostOf(all, all));
      LayoutOf(primary, extras).Ok? <==> common.Some? && forall p :: p in all ==> Mountable(common.value, p)
    ensures LayoutOf(primary, extras).Err? ==> !LayoutOf(primary, extras).error.NotUnderAnchor?
  {
    var all := Unique(primary, extras);
    var common := CommonAncestor(OutermostOf(all, all));
    AnchorIsGreatest(primary, extras, []);
    if common.Some? {
      MountAllRefusals(primary, common.value, all, all);
      forall p | p in all ensures MountFor(common.value, p).Ok? <==> Mountable(common.value, p) {
        MountableExactly(common.value, p);
      }
    }
  }

  lemma {:induction false} MountAllRefusals(primary: Path, anchor: Path, some: seq<Path>, all: seq<Path>)
    requires Below(anchor, some)
    ensures var r := MountAll(primary, anchor, some, all);
      && (r.Ok? <==> forall p :: p in some ==> MountFor(anchor, p).Ok?)
      && (r.Err? ==> !r.error.NotUnderAnchor?)
  {
    if some != [] {
      var init := some[..|some| - 1];
      var last := some[|some| - 1];
      assert some == init + [last];
      assert forall p :: p in init ==> p in some;
      assert last in some;
      MountAllRefusals(primary, anchor, init, all);
    }
  }

  // ---- the layout, said of the directories themselves ----

  ghost predicate Given(p: Path, primary: Path, extras: seq<Path>) {
    p == primary || p in extras
  }

  ghost predicate AroundAll(q: Path, primary: Path, extras: seq<Path>) {
    forall p :: Given(p, primary, extras) ==> q <= p
  }

  /** The deepest directory around all the given ones. */
  ghost predicate DeepestAround(anchor: Path, primary: Path, extras: seq<Path>) {
    AroundAll(anchor, primary, extras) && forall q :: AroundAll(q, primary, extras) ==> q <= anchor
  }

  /** A component that can stand in a path of the manifest. */
  ghost predicate Plain(c: Component) {
    c.Normal? && c.name != [] && 47 !in c.name && 92 !in c.name
  }

  /** The names below the anchor, at most eight, with slashes between them. */
  ghost predicate MountedAt(mount: Str, anchor: Path, path: Path) {
    && |anchor| <= |path| <= |anchor| + 8
    && exists names: seq<Str> :: NamesBelow(names, anchor, path) && mount == Join(names, [47])
  }

  ghost predicate NamesBelow(names: seq<Str>, anchor: Path, path: Path) {
    && |path| == |anchor| + |names|
    && forall k :: 0 <= k < |names| ==> Plain(path[|anchor| + k]) && path[|anchor| + k].name == names[k]
  }

  ghost predicate RootRight(r: RootMount, anchor: Path, primary: Path, extras: seq<Path>) {
    && Given(r.path, primary, extras) && MountedAt(r.mount, anchor, r.path)
    && (r.primary <==> r.path == primary)
    && (r.nested <==> exists o :: Given(o, primary, extras) && o != r.path && o <= r.path)
  }

  /** Each directory once, fewer slashes first and then by name. */
  ghost predicate Arranged(layout: Layout, primary: Path, extras: seq<Path>) {
    && DeepestAround(layout.anchor, primary, extras)
    && (forall r :: r in layout.roots ==> RootRight(r, layout.anchor, primary, extras))
    && (forall p :: Given(p, primary, extras) ==> exists r :: r in layout.roots && r.path == p)
    && forall i, j :: 0 <= i < j < |layout.roots| ==>
      && layout.roots[i].path != layout.roots[j].path
      && SortsBefore(layout.roots[i].mount, layout.roots[j].mount)
  }

  ghost predicate SortsBefore(a: Str, b: Str) {
    var x, y := multiset(a)[47], multiset(b)[47];
    x < y || (x == y && Leq(a, b))
  }

  /** Why there is no layout. */
  ghost predicate Unplaceable(e: LayoutError, primary: Path, extras: seq<Path>) {
    match e
    case NoRoots => forall q :: AroundAll(q, primary, extras) ==> q == []
    case NotUnderAnchor(_) => false
    case UnusableComponent(p) =>
      Given(p, primary, extras) &&
      exists anchor :: DeepestAround(anchor, primary, extras) && |anchor| <= |p| && HoldsOdd(p, |anchor|)
    case TooDeep(p, depth) =>
      Given(p, primary, extras) &&
      exists anchor :: DeepestAround(anchor, primary, extras) && !HoldsOdd(p, |anchor|) && |p| == |anchor| + depth &&
        depth > 8
  }

  ghost predicate HoldsOdd(p: Path, from: nat) {
    exists k :: from <= k < |p| && !Plain(p[k])
  }

  lemma UniqueIsGiven(primary: Path, extras: seq<Path>)
    ensures forall p :: p in Unique(primary, extras) <==> Given(p, primary, extras)
  {
  }

  lemma AncestorIsDeepest(primary: Path, extras: seq<Path>)
    ensures var all := Unique(primary, extras); var r := CommonAncestor(OutermostOf(all, all));
      && (r.Some? ==> DeepestAround(r.value, primary, extras))
      && (r.None? ==> forall q :: AroundAll(q, primary, extras) ==> q == [])
  {
    var all := Unique(primary, extras);
    AnchorIsGreatest(primary, extras, []);
    hide CommonAncestor, OutermostOf, Unique;
    UniqueIsGiven(primary, extras);
    forall q | AroundAll(q, primary, extras)
      ensures var r := CommonAncestor(OutermostOf(all, all));
        (r.Some? ==> q <= r.value) && (r.None? ==> q == []) {
      AnchorIsGreatest(primary, extras, q);
    }
  }

  lemma MountIsMounted(anchor: Path, path: Path)
    requires MountFor(anchor, path).Ok?
    ensures MountedAt(MountFor(anchor, path).value, anchor, path)
  {
    MountShape(anchor, path);
    var rel := path[|anchor|..];
    var names := Texts(rel);
    forall k | 0 <= k < |names|
      ensures Plain(path[|anchor| + k]) && path[|anchor| + k].name == names[k] {
      assert path[|anchor| + k] == rel[k] && rel[k] in rel;
    }
    assert NamesBelow(names, anchor, path);
    hide Join, Texts, NamesBelow;
  }

  lemma {:induction false} SlashesCounted(s: Str)
    ensures Slashes(s) == multiset(s)[SLASH]
  {
    if s != [] {
      SlashesCounted(s[1..]);
      assert s == [s[0]] + s[1..];
    }
  }

  lemma DescribedIsRight(r: RootMount, anchor: Path, primary: Path, extras: seq<Path>)
    requires r.path in Unique(primary, extras)
    requires Describes(r, r.path, primary, anchor, Unique(primary, extras))
    ensures RootRight(r, anchor, primary, extras)
  {
    UniqueIsGiven(primary, extras);
    MountIsMounted(anchor, r.path);
    hide MountFor, MountedAt, Unique;
    if r.nested {
      var o :| o in Unique(primary, extras) && o != r.path && StartsWith(r.path, o);
      assert Given(o, primary, extras);
    }
  }

  lemma SortedMounts(a: RootMount, b: RootMount)
    requires OutermostFirst(a, b)
    ensures SortsBefore(a.mount, b.mount)
  {
    SlashesCounted(a.mount);
    SlashesCounted(b.mount);
  }

  lemma LaidOutArranged(layout: Layout, primary: Path, extras: seq<Path>)
    requires LaidOut(layout, primary, Unique(primary, extras)) && Sorted(OutermostFirst, layout.roots)
    requires DeepestAround(layout.anchor, primary, extras)
    ensures Arranged(layout, primary, extras)
  {
    hide Encloses, Describes, RootRight, Unique, DeepestAround, Given, OutermostFirst, SortsBefore;
    UniqueIsGiven(primary, extras);
    forall r | r in layout.roots ensures RootRight(r, layout.anchor, primary, extras) {
      DescribedIsRight(r, layout.anchor, primary, extras);
    }
    forall i, j | 0 <= i < j < |layout.roots|
      ensures SortsBefore(layout.roots[i].mount, layout.roots[j].mount) {
      SortedMounts(layout.roots[i], layout.roots[j]);
    }
  }

  lemma LayoutAnchor(primary: Path, extras: seq<Path>)
    requires LayoutOf(primary, extras).Ok?
    ensures DeepestAround(LayoutOf(primary, extras).value.anchor, primary, extras)
  {
    hide DeepestAround, OutermostOf, CommonAncestor, Unique, MountAll, Sort;
    AncestorIsDeepest(primary, extras);
  }

  lemma LayoutArranged(primary: Path, extras: seq<Path>)
    requires LayoutOf(primary, extras).Ok?
    ensures Arranged(LayoutOf(primary, extras).value, primary, extras)
  {
    hide *;
    LayoutIsLaidOut(primary, extras);
    LayoutSorted(primary, extras);
    LayoutAnchor(primary, extras);
    LaidOutArranged(LayoutOf(primary, extras).value, primary, extras);
  }

  lemma LayoutMeans(primary: Path, extras: seq<Path>)
    ensures var r := LayoutOf(primary, extras);
      (r.Ok? ==> Arranged(r.value, primary, extras)) && (r.Err? ==> Unplaceable(r.error, primary, extras))
  {
    hide *;
    if LayoutOf(primary, extras).Ok? {
      LayoutArranged(primary, extras);
    } else {
      RefusalIsUnplaceable(primary, extras);
    }
  }

  lemma LayoutSorted(primary: Path, extras: seq<Path>)
    requires LayoutOf(primary, extras).Ok?
    ensures Sorted(OutermostFirst, LayoutOf(primary, extras).value.roots)
  {
    var all := Unique(primary, extras);
    var anchor := LayoutOf(primary, extras).value.anchor;
    var unsorted := MountAll(primary, anchor, all, all).value;
    OutermostFirstIsTotalPreorder();
    SortSorts(OutermostFirst, unsorted);
  }

  lemma {:induction false} FailedMount(primary: Path, anchor: Path, some: seq<Path>, all: seq<Path>) returns (p: Path)
    requires MountAll(primary, anchor, some, all).Err?
    ensures p in some && MountFor(anchor, p) == Err(MountAll(primary, anchor, some, all).error)
  {
    hide MountFor;
    var last := some[|some| - 1];
    if MountAll(primary, anchor, some[..|some| - 1], all).Err? {
      p := FailedMount(primary, anchor, some[..|some| - 1], all);
    } else {
      p := last;
    }
  }

  lemma MountFailure(anchor: Path, p: Path, primary: Path, extras: seq<Path>)
    requires DeepestAround(anchor, primary, extras) && Given(p, primary, extras) && MountFor(anchor, p).Err?
    ensures Unplaceable(MountFor(anchor, p).error, primary, extras)
  {
    assert anchor <= p;
    hide DeepestAround, Given;
    var rel := p[|anchor|..];
    if c :| c in rel && !Usable(c) {
      var k :| 0 <= k < |rel| && rel[k] == c;
      assert !Plain(p[|anchor| + k]);
      assert HoldsOdd(p, |anchor|);
    } else {
      forall k | |anchor| <= k < |p| ensures Plain(p[k]) {
        assert rel[k - |anchor|] in rel;
      }
      assert !HoldsOdd(p, |anchor|);
    }
  }

  lemma RefusalIsUnplaceable(primary: Path, extras: seq<Path>)
    requires LayoutOf(primary, extras).Err?
    ensures Unplaceable(LayoutOf(primary, extras).error, primary, extras)
  {
    var all := Unique(primary, extras);
    var common := CommonAncestor(OutermostOf(all, all));
    AncestorIsDeepest(primary, extras);
    UniqueIsGiven(primary, extras);
    if common.Some? {
      var p := FailedMount(primary, common.value, all, all);
      hide DeepestAround, Given, CommonAncestor, OutermostOf, MountFor, Unplaceable, Unique;
      MountFailure(common.value, p, primary, extras);
    }
  }
}
