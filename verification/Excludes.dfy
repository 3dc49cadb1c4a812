/** What never leaves the machine, what does despite git, and the walk that finds the latter
    (crates/rc-agent/src/excludes.rs, crates/rc-agent/src/scanner.rs). */
module Excludes {
  import opened Text
  import opened Paths

  const ALWAYS_EXCLUDE: seq<Str> := [Ascii(".git"), Ascii("node_modules"), Ascii(".direnv"), Ascii(".venv")]

  /** Whether compiled patterns ignore a path; the flag says that the path is a directory. */
  type Matcher = (Str, bool) -> bool

  datatype Excludes = Excludes(dirs: seq<Str>, user: Matcher, userEmpty: bool)

  datatype Includes = Includes(patterns: Matcher, empty: bool)

  // ---- a path or one of its directories ----

  /** One component appended to a growing prefix. */
  function Grown(prefix: Str, part: Str): Str {
    if prefix == [] then part else prefix + [SLASH] + part
  }

  /** The first `n` components as the loop spells them. */
  function Prefix(parts: seq<Str>, n: nat): Str
    requires n <= |parts|
  {
    if n == 0 then [] else Grown(Prefix(parts, n - 1), parts[n - 1])
  }

  ghost predicate ParentMatches(patterns: Matcher, parts: seq<Str>) {
    exists n :: 1 <= n < |parts| && patterns(Prefix(parts, n), true)
  }

  /** The directories on the way to a path, each one component longer. */
  ghost predicate Grows(dirs: seq<Str>, parts: seq<Str>) {
    && |dirs| == |parts| > 0 && dirs[0] == []
    && forall n {:trigger parts[n]} :: 0 <= n < |parts| - 1 ==>
      dirs[n + 1] == if dirs[n] == [] then parts[n] else dirs[n] + [47] + parts[n]
  }

  ghost predicate AnyDir(patterns: Matcher, dirs: seq<Str>) {
    exists n :: 1 <= n < |dirs| && patterns(dirs[n], true)
  }

  lemma MatchesByDirs(patterns: Matcher, path: Str)
    ensures exists dirs ::
      Grows(dirs, Split(path, SLASH)) &&
      (MatchesUnder(patterns, path) <==> patterns(path, false) || AnyDir(patterns, dirs))
  {
    hide Split;
    var parts := Split(path, SLASH);
    var dirs := seq(|parts|, n requires 0 <= n < |parts| => Prefix(parts, n));
    forall n | 1 <= n < |parts| ensures dirs[n] == Prefix(parts, n) {
    }
    assert Grows(dirs, parts);
  }

  /** `matches_path_or_parent`: a matching directory above the file wins outright. */
  method MatchesPathOrParent(patterns: Matcher, path: Str) returns (r: bool)
    ensures r <==> MatchesUnder(patterns, path)
    ensures exists dirs :: Grows(dirs, Split(path, SLASH)) && (r <==> patterns(path, false) || AnyDir(patterns, dirs))
  {
    MatchesByDirs(patterns, path);
    hide Grows, AnyDir;
    var parts := Split(path, SLASH);
    var prefix: Str := [];
    for i := 0 to |parts| - 1
      invariant prefix == Prefix(parts, i)
      invariant forall n :: 1 <= n <= i ==> !patterns(Prefix(parts, n), true)
    {
      if prefix != [] {
        prefix := prefix + [SLASH];
      }
      prefix := prefix + parts[i];
      assert [] + parts[i] == parts[i];
      assert prefix == Prefix(parts, i + 1);
      if patterns(prefix, true) {
        assert patterns(Prefix(parts, i + 1), true);
        return true;
      }
    }
    return patterns(path, false);
  }

  ghost predicate MatchesUnder(patterns: Matcher, path: Str) {
    ParentMatches(patterns, Split(path, SLASH)) || patterns(path, false)
  }

  ghost predicate MatchesUser(e: Excludes, path: Str) {
    !e.userEmpty && MatchesUnder(e.user, path)
  }

  /** Build output and version control: the first component, or a listed name anywhere. */
  predicate MatchesDirs(e: Excludes, path: Str) {
    var parts := Split(path, SLASH);
    parts[0] in ALWAYS_EXCLUDE || exists d :: d in e.dirs && d in parts
  }

  /** `Excludes::matches`. */
  ghost predicate Excluded(e: Excludes, path: Str) {
    MatchesDirs(e, path) || MatchesUser(e, path)
  }

  /** `Includes::matches`. */
  ghost predicate Included(i: Includes, path: Str) {
    !i.empty && MatchesUnder(i.patterns, path)
  }

  method IsExcluded(e: Excludes, path: Str) returns (r: bool)
    ensures r <==> Excluded(e, path)
  {
    r := MatchesDirs(e, path);
    if !r && !e.userEmpty {
      r := MatchesPathOrParent(e.user, path);
    }
  }

  method IsIncluded(i: Includes, path: Str) returns (r: bool)
    ensures r <==> Included(i, path)
  {
    r := false;
    if !i.empty {
      r := MatchesPathOrParent(i.patterns, path);
    }
  }

  /** Directory names a walk never descends into. */
  function PrunedDirNames(e: Excludes): seq<Str> {
    ALWAYS_EXCLUDE + e.dirs
  }

  predicate PrunesUserDir(e: Excludes, path: Str) {
    !e.userEmpty && e.user(path, true)
  }

  // ---- components ----

  /** Names a directory entry can have; those with a backslash are not modelled. */
  predicate EntryName(name: Str) {
    name != [] && SLASH !in name && BACKSLASH !in name
  }

  predicate EntryNames(names: seq<Str>) {
    forall n :: n in names ==> EntryName(n)
  }

  function PathText(names: seq<Str>): Str {
    Join(names, [SLASH])
  }

  lemma {:induction false} PrefixIsPath(names: seq<Str>, n: nat)
    requires EntryNames(names) && n <= |names|
    ensures Prefix(names, n) == PathText(names[..n])
    ensures n > 0 ==> Prefix(names, n) != []
  {
    if n > 0 {
      PrefixIsPath(names, n - 1);
      assert names[n - 1] in names;
      assert names[..n] == names[..n - 1] + [names[n - 1]];
      if n > 1 {
        JoinAppend(names[..n - 1], names[n - 1], [SLASH]);
      } else {
        assert names[..1] == [names[0]];
      }
    }
  }

  lemma PathParts(names: seq<Str>)
    requires EntryNames(names) && names != []
    ensures Split(PathText(names), SLASH) == names
  {
    SplitJoin(names, SLASH);
  }

  /** A directory the user excludes takes everything below it along: no other answer of the
      matcher, a negated pattern included, brings any of it back. */
  lemma ExcludedDirectoryStaysExcluded(e: Excludes, dir: seq<Str>, below: seq<Str>)
    requires EntryNames(dir) && EntryNames(below) && dir != [] && below != []
    requires PrunesUserDir(e, PathText(dir))
    ensures Excluded(e, PathText(dir + below))
  {
    var names := dir + below;
    PathParts(names);
    PrefixIsPath(names, |dir|);
    assert names[..|dir|] == dir;
    assert e.user(Prefix(names, |dir|), true);
  }

  /** The structural names reach deeper in a walk than in the check of a single path. */
  lemma StructuralPruningIsDeeper()
    ensures var e := Excludes([], (_, _) => false, true); var path := [Ascii("a"), Ascii(".git"), Ascii("x")];
      !Excluded(e, PathText(path)) && path[1] in PrunedDirNames(e)
  {
    var path := [Ascii("a"), Ascii(".git"), Ascii("x")];
    assert Ascii("a") == [97];
    assert SLASH !in Ascii("a") && SLASH !in Ascii(".git") && SLASH !in Ascii("x");
    SplitJoin(path, SLASH);
    assert |Ascii("a")| == 1 && |Ascii(".git")| == 4 && |Ascii("node_modules")| == 12 && |Ascii(".direnv")| == 7 &&
      |Ascii(".venv")| == 5;
    assert Ascii("a") !in ALWAYS_EXCLUDE;
    assert ALWAYS_EXCLUDE[0] == Ascii(".git");
    assert (ALWAYS_EXCLUDE + [])[0] == Ascii(".git");
  }

  // ---- the tree ----

  /** A directory entry; links count as files, since the walk does not follow them. */
  datatype Node = File(name: Str) | Dir(name: Str, children: seq<Node>)

  ghost predicate WellNamed(nodes: seq<Node>)
    decreases nodes
  {
    forall n :: n in nodes ==> EntryName(n.name) && (n.Dir? ==> WellNamed(n.children))
  }

  /** Every file below a directory, by the names on the way. */
  ghost function AllFiles(nodes: seq<Node>, names: seq<Str>): seq<seq<Str>>
    decreases nodes
  {
    if nodes == [] then []
    else
      var n := nodes[0];
      (if n.File? then [names + [n.name]] else AllFiles(n.children, names + [n.name])) + AllFiles(nodes[1..], names)
  }

  /** What the walk is for: included, not excluded, and below no structural directory. */
  ghost predicate Wanted(e: Excludes, i: Includes, file: seq<Str>) {
    && Included(i, PathText(file)) && !Excluded(e, PathText(file))
    && forall k :: 0 <= k < |file| - 1 ==> file[k] !in PrunedDirNames(e)
  }

  ghost function WantedIn(e: Excludes, i: Includes, files: seq<seq<Str>>): seq<Str> {
    if files == [] then []
    else (if Wanted(e, i, files[0]) then [PathText(files[0])] else []) + WantedIn(e, i, files[1..])
  }

  lemma {:induction false} WantedInConcat(e: Excludes, i: Includes, a: seq<seq<Str>>, b: seq<seq<Str>>)
    ensures WantedIn(e, i, a + b) == WantedIn(e, i, a) + WantedIn(e, i, b)
  {
    hide Wanted, PathText;
    if a == [] {
      assert a + b == b;
    } else {
      assert (a + b)[1..] == a[1..] + b;
      WantedInConcat(e, i, a[1..], b);
    }
  }

  lemma {:induction false} NothingWanted(e: Excludes, i: Includes, files: seq<seq<Str>>)
    requires forall f :: f in files ==> !Wanted(e, i, f)
    ensures WantedIn(e, i, files) == []
  {
    hide Wanted, PathText;
    if files != [] {
      assert files[0] in files;
      NothingWanted(e, i, files[1..]);
    }
  }

  /** Every listed file lies below the directory it was listed from. */
  lemma {:induction false} FilesLieBelow(nodes: seq<Node>, names: seq<Str>)
    requires WellNamed(nodes)
    ensures forall f :: f in AllFiles(nodes, names) ==>
      |f| > |names| && f[..|names|] == names && EntryNames(f[|names|..])
    decreases nodes
  {
    if nodes != [] {
      var n := nodes[0];
      assert n in nodes;
      forall m | m in nodes[1..] ensures m in nodes { }
      FilesLieBelow(nodes[1..], names);
      if n.Dir? {
        FilesLieBelow(n.children, names + [n.name]);
        forall f | f in AllFiles(n.children, names + [n.name])
          ensures |f| > |names| && f[..|names|] == names && EntryNames(f[|names|..])
        {
          assert f[..|names|] == f[..|names| + 1][..|names|];
          assert f[|names|] == f[..|names| + 1][|names|] == n.name;
          assert f[|names|..] == [n.name] + f[|names| + 1..];
        }
      } else {
        assert (names + [n.name])[|names|..] == [n.name];
      }
    }
  }

  /** Nothing below a pruned directory is wanted. */
  lemma PrunedHoldsNothing(e: Excludes, i: Includes, d: Node, names: seq<Str>)
    requires d.Dir? && EntryName(d.name) && WellNamed(d.children) && EntryNames(names)
    requires d.name in PrunedDirNames(e) || PrunesUserDir(e, PathText(names + [d.name]))
    ensures WantedIn(e, i, AllFiles(d.children, names + [d.name])) == []
  {
    var at := names + [d.name];
    FilesLieBelow(d.children, at);
    forall f | f in AllFiles(d.children, at) ensures !Wanted(e, i, f) {
      assert f == at + f[|at|..] && f[|at| - 1] == at[|at| - 1] == d.name;
      if PrunesUserDir(e, PathText(at)) {
        ExcludedDirectoryStaysExcluded(e, at, f[|at|..]);
      }
    }
    NothingWanted(e, i, AllFiles(d.children, at));
  }

  lemma AllFilesStep(e: Excludes, i: Includes, nodes: seq<Node>, k: nat, names: seq<Str>)
    requires k < |nodes|
    ensures WantedIn(e, i, AllFiles(nodes[k..], names)) ==
      WantedAt(e, i, nodes[k], names) + WantedIn(e, i, AllFiles(nodes[k + 1..], names))
  {
    assert nodes[k..][1..] == nodes[k + 1..];
    WantedInConcat(e, i,
      if nodes[k].File? then [names + [nodes[k].name]] else AllFiles(nodes[k].children, names + [nodes[k].name]),
      AllFiles(nodes[k + 1..], names));
  }

  /** What one directory entry owes. */
  ghost function WantedAt(e: Excludes, i: Includes, n: Node, names: seq<Str>): seq<Str> {
    WantedIn(e, i, if n.File? then [names + [n.name]] else AllFiles(n.children, names + [n.name]))
  }

  ghost predicate NonePruned(e: Excludes, names: seq<Str>) {
    EntryNames(names) && forall n :: n in names ==> n !in PrunedDirNames(e)
  }

  /** The walk below one directory. It prunes, and still finds exactly what filtering every file
      of the tree would find. */
  method Walk(e: Excludes, i: Includes, nodes: seq<Node>, names: seq<Str>) returns (found: seq<Str>)
    requires WellNamed(nodes) && NonePruned(e, names)
    ensures found == WantedIn(e, i, AllFiles(nodes, names))
    decreases nodes, |nodes|
  {
    hide *;
    found := [];
    assert nodes[0..] == nodes;
    for k := 0 to |nodes|
      invariant found + WantedIn(e, i, AllFiles(nodes[k..], names)) == WantedIn(e, i, AllFiles(nodes, names))
    {
      EntryIsWellNamed(nodes, k);
      AllFilesStep(e, i, nodes, k, names);
      var one := Visit(e, i, nodes[k], names);
      found := found + one;
    }
    NothingLeft(e, i, nodes[|nodes|..], names);
  }

  /** One entry: a directory is entered unless it is pruned, a file is kept if it matches. */
  method Visit(e: Excludes, i: Includes, n: Node, names: seq<Str>) returns (found: seq<Str>)
    requires EntryName(n.name) && (n.Dir? ==> WellNamed(n.children)) && NonePruned(e, names)
    ensures found == WantedAt(e, i, n, names)
    decreases n
  {
    hide PathText, PrunesUserDir, Excluded, Included, WantedIn, AllFiles, Wanted, NonePruned, EntryName, EntryNames,
      WellNamed, PrunedDirNames;
    var rel := PathText(names + [n.name]);
    match n {
      case Dir(name, children) =>
        if name in PrunedDirNames(e) || PrunesUserDir(e, rel) {
          PrunedIsSkipped(e, i, n, names);
          return [];
        }
        DeeperNonePruned(e, names, name);
        found := Walk(e, i, children, names + [name]);
      case File(name) =>
        var excluded := IsExcluded(e, rel);
        if excluded {
          FileIsWanted(e, i, names, name);
          return [];
        }
        var included := IsIncluded(i, rel);
        FileIsWanted(e, i, names, name);
        found := if included then [rel] else [];
    }
  }

  lemma EntryIsWellNamed(nodes: seq<Node>, k: nat)
    requires WellNamed(nodes) && k < |nodes|
    ensures EntryName(nodes[k].name) && (nodes[k].Dir? ==> WellNamed(nodes[k].children))
  {
    assert nodes[k] in nodes;
  }

  lemma NothingLeft(e: Excludes, i: Includes, nodes: seq<Node>, names: seq<Str>)
    requires nodes == []
    ensures WantedIn(e, i, AllFiles(nodes, names)) == []
  {
  }

  lemma PrunedIsSkipped(e: Excludes, i: Includes, n: Node, names: seq<Str>)
    requires n.Dir? && EntryName(n.name) && WellNamed(n.children) && NonePruned(e, names)
    requires n.name in PrunedDirNames(e) || PrunesUserDir(e, PathText(names + [n.name]))
    ensures WantedAt(e, i, n, names) == []
  {
    PrunedHoldsNothing(e, i, n, names);
  }

  lemma DeeperNonePruned(e: Excludes, names: seq<Str>, name: Str)
    requires NonePruned(e, names) && EntryName(name) && name !in PrunedDirNames(e)
    ensures NonePruned(e, names + [name])
  {
  }

  lemma FileIsWanted(e: Excludes, i: Includes, names: seq<Str>, name: Str)
    requires NonePruned(e, names)
    ensures WantedAt(e, i, File(name), names) ==
      if !Excluded(e, PathText(names + [name])) && Included(i, PathText(names + [name])) then [PathText(names + [name])]
      else []
  {
    FileWanted(e, i, names, name);
  }

  lemma FileWanted(e: Excludes, i: Includes, names: seq<Str>, name: Str)
    requires forall n :: n in names ==> n !in PrunedDirNames(e)
    ensures WantedIn(e, i, [names + [name]]) ==
      if !Excluded(e, PathText(names + [name])) && Included(i, PathText(names + [name])) then [PathText(names + [name])]
      else []
  {
    assert [names + [name]][1..] == [];
    assert WantedIn(e, i, [names + [name]][1..]) == [];
  }

  /** `ignored_but_included`. */
  method IgnoredButIncluded(e: Excludes, i: Includes, tree: seq<Node>) returns (found: seq<Str>)
    requires WellNamed(tree)
    ensures found == WantedIn(e, i, AllFiles(tree, []))
  {
    if i.empty {
      NothingWanted(e, i, AllFiles(tree, []));
      return [];
    }
    found := Walk(e, i, tree, []);
  }

  /** Membership, spelled out. */
  lemma {:induction false} FoundExactly(e: Excludes, i: Includes, files: seq<seq<Str>>, path: Str)
    ensures path in WantedIn(e, i, files) <==> exists f :: f in files && Wanted(e, i, f) && PathText(f) == path
  {
    hide Wanted, PathText;
    if files != [] {
      FoundExactly(e, i, files[1..], path);
      assert files == [files[0]] + files[1..];
    }
  }
}
