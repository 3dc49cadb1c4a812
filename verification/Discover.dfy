/** Finding the directories a cargo build reaches (crates/rc-core/src/discover.rs). */
module Discover {
  import opened Text
  import opened Paths

  const MAX_DEPTH: nat := 4

  // ---- resolving `.` and `..` textually ----

  /** `PathBuf::pop`: the root and the empty path stay. */
  function Popped(p: Path): Path {
    if p == [] || p == [RootDir] then p else p[..|p| - 1]
  }

  /** One component pushed onto what is resolved so far. */
  function Resolve(out: Path, c: Component): Path {
    match c
    case ParentDir => Popped(out)
    case CurDir => out
    case RootDir => [RootDir]
    case Normal(_) => out + [c]
  }

  function LexicalFrom(out: Path, p: Path): Path
    decreases |p|
  {
    if p == [] then out else LexicalFrom(Resolve(out, p[0]), p[1..])
  }

  method Lexical(p: Path) returns (out: Path)
    ensures out == LexicalFrom([], p)
  {
    out := [];
    for i := 0 to |p|
      invariant LexicalFrom(out, p[i..]) == LexicalFrom([], p)
    {
      assert p[i..][1..] == p[i + 1..];
      match p[i] {
        case ParentDir => if out != [] && out != [RootDir] { out := out[..|out| - 1]; }
        case CurDir =>
        case RootDir => out := [RootDir];
        case Normal(_) => out := out + [p[i]];
      }
    }
    assert p[|p|..] == [];
  }

  /** Nothing is left to resolve afterwards, and what needs no resolving is kept. */
  lemma {:induction false} LexicalIsResolved(out: Path, p: Path)
    requires PathOk(out) && PathOk(p)
    requires forall k :: 0 <= k < |out| ==> out[k].Normal? || (k == 0 && out[k] == RootDir)
    ensures var r := LexicalFrom(out, p);
      PathOk(r) && forall k :: 0 <= k < |r| ==> r[k].Normal? || (k == 0 && r[k] == RootDir)
    decreases |p|
  {
    if p != [] {
      assert p[0] in p;
      LexicalIsResolved(Resolve(out, p[0]), p[1..]);
    }
  }

  lemma {:induction false} LexicalOfNames(out: Path, names: Path, rest: Path)
    requires forall c :: c in names ==> c.Normal?
    ensures LexicalFrom(out, names + rest) == LexicalFrom(out + names, rest)
    decreases |names|
  {
    if names == [] {
      assert names + rest == rest && out + names == out;
    } else {
      assert names[0] in names;
      assert (names + rest)[0] == names[0] && (names + rest)[1..] == names[1..] + rest;
      assert out + names == out + [names[0]] + names[1..];
      LexicalOfNames(out + [names[0]], names[1..], rest);
    }
  }

  /** Climbing out of named directories removes exactly those. */
  lemma {:induction false} LexicalOfClimb(out: Path, ups: nat, rest: Path)
    requires out != [] && out[0] == RootDir && ups < |out|
    ensures LexicalFrom(out, seq(ups, _ => ParentDir) + rest) == LexicalFrom(out[..|out| - ups], rest)
  {
    var p := seq(ups, _ => ParentDir) + rest;
    if ups == 0 {
      assert p == rest && out[..|out| - 0] == out;
    } else {
      assert out[..|out| - 1][..|out| - ups] == out[..|out| - ups];
      assert p[1..] == seq(ups - 1, _ => ParentDir) + rest;
      assert Resolve(out, p[0]) == out[..|out| - 1];
      LexicalOfClimb(out[..|out| - 1], ups - 1, rest);
    }
  }

  // ---- what cargo and the file system answer ----

  datatype Meta = Meta(workspaceRoot: Path, pathDeps: seq<Path>)

  /** `metadata` is `cargo metadata` in a directory, `overrides` and `patches` the local paths in
      the manifest and the cargo configuration of a workspace; `None` is a failed lookup. */
  datatype World = World(
    metadata: Path -> Option<Meta>,
    overrides: Path -> Option<seq<Path>>,
    patches: Path -> Option<seq<Path>>,
    canonicalize: Path -> Option<Path>,
    isDir: Path -> bool)

  datatype Reason =
    | TooDeep(dir: Path)
    | NoMetadata(dir: Path)
    | BadOverrides(dir: Path)
    | BadPatches(dir: Path)
    | Missing(candidate: Path)
    | Symlinked(candidate: Path)
    | NoOwner(candidate: Path)

  datatype Discovery = Discovery(roots: set<Path>, complete: bool, note: Option<Reason>)

  function Or(o: Option<Path>, d: Path): Path {
    if o.Some? then o.value else d
  }

  /** Every local path the workspace seen from `dir` mentions. */
  function Candidates(w: World, dir: Path): Option<seq<Path>> {
    if w.metadata(dir).None? then None
    else
      var ws := w.metadata(dir).value.workspaceRoot;
      if w.overrides(ws).None? || w.patches(ws).None? then None
      else Some(w.metadata(dir).value.pathDeps + w.overrides(ws).value + w.patches(ws).value)
  }

  datatype Verdict = Skip | Refuse(reason: Reason) | Found(owner: Path)

  /** What becomes of one path mentioned by the workspace seen from `dir`. */
  function Judge(w: World, dir: Path, candidate: Path): Verdict {
    if w.canonicalize(candidate).None? then Refuse(Missing(candidate))
    else
      var canonical := w.canonicalize(candidate).value;
      if !w.isDir(canonical) then Skip
      else if RelativePath(dir, LexicalFrom([], candidate)) !=
              RelativePath(Or(w.canonicalize(dir), dir), canonical) then
        Refuse(Symlinked(candidate))
      else if w.metadata(canonical).None? then Refuse(NoOwner(candidate))
      else
        var ws := w.metadata(canonical).value.workspaceRoot;
        Found(Or(w.canonicalize(ws), ws))
  }

  // ---- what a complete answer means ----

  /** `r` owns a path the workspace seen from `dir` mentions. */
  ghost predicate Hop(w: World, dir: Path, r: Path) {
    Candidates(w, dir).Some? && exists c :: c in Candidates(w, dir).value && Judge(w, dir, c) == Found(r)
  }

  ghost predicate Chain(w: World, root: Path, dir: Path, n: nat)
    decreases n
  {
    if n == 0 then dir == root else exists mid :: Chain(w, root, mid, n - 1) && Hop(w, mid, dir)
  }

  /** The build gets from `root` to `dir`. */
  ghost predicate Reachable(w: World, root: Path, dir: Path) {
    exists n: nat :: Chain(w, root, dir, n)
  }

  /** The path exists, keeps its relative position, and has its owner among `roots`, unless it is
      no directory. */
  ghost predicate Answered(w: World, dir: Path, candidate: Path, roots: set<Path>) {
    var verdict := Judge(w, dir, candidate);
    verdict.Skip? || (verdict.Found? && verdict.owner in roots)
  }

  /** Every path mentioned by the workspace seen from `dir` is answered. */
  ghost predicate Followed(w: World, dir: Path, roots: set<Path>) {
    Candidates(w, dir).Some? && forall c :: c in Candidates(w, dir).value ==> Answered(w, dir, c, roots)
  }

  /** `analysed` maps each workspace to the directory it was analysed from. */
  ghost predicate AllFollowed(w: World, analysed: map<Path, Path>, roots: set<Path>) {
    forall ws :: ws in analysed ==>
      && w.metadata(analysed[ws]).Some? && w.metadata(analysed[ws]).value.workspaceRoot == ws
      && Followed(w, analysed[ws], roots)
  }

  ghost predicate Analysed(w: World, analysed: map<Path, Path>, dir: Path) {
    w.metadata(dir).Some? && w.metadata(dir).value.workspaceRoot in analysed
  }

  ghost predicate Inside(analysed: map<Path, Path>, dir: Path) {
    exists ws :: ws in analysed && StartsWith(dir, ws)
  }

  ghost predicate Settled(w: World, analysed: map<Path, Path>, dir: Path) {
    Analysed(w, analysed, dir) || Inside(analysed, dir)
  }

  ghost predicate Mentioned(w: World, analysed: map<Path, Path>, r: Path) {
    exists ws :: ws in analysed && Hop(w, analysed[ws], r)
  }

  /** A workspace was analysed from this directory. */
  ghost predicate From(analysed: map<Path, Path>, dir: Path) {
    exists ws :: ws in analysed && analysed[ws] == dir
  }

  /** The build gets to every directory a workspace was analysed from. */
  ghost predicate AllReachable(w: World, root: Path, analysed: map<Path, Path>) {
    forall ws :: ws in analysed ==> Reachable(w, root, analysed[ws])
  }

  /** The start is analysed, every analysed workspace is followed to the end, and each root is one
      that such a workspace mentions and that was itself analysed or lies inside one that was. */
  ghost predicate Complete(w: World, root: Path, analysed: map<Path, Path>, roots: set<Path>) {
    && From(analysed, root)
    && AllReachable(w, root, analysed)
    && AllFollowed(w, analysed, roots)
    && forall r :: r in roots ==> Settled(w, analysed, r) && Mentioned(w, analysed, r)
  }

  /** A refusal names something that really is wrong at a directory the build really reaches. */
  ghost predicate Justified(w: World, root: Path, reason: Reason) {
    exists dir, n: nat :: Chain(w, root, dir, n) && n <= MAX_DEPTH + 1 && Wrong(w, dir, n, reason)
  }

  ghost predicate Wrong(w: World, dir: Path, n: nat, reason: Reason) {
    match reason
    case TooDeep(d) => d == dir && n == MAX_DEPTH + 1
    case NoMetadata(d) => d == dir && w.metadata(d).None?
    case BadOverrides(d) => d == dir && w.metadata(d).Some? && w.overrides(w.metadata(d).value.workspaceRoot).None?
    case BadPatches(d) =>
      && d == dir && w.metadata(d).Some?
      && w.overrides(w.metadata(d).value.workspaceRoot).Some? && w.patches(w.metadata(d).value.workspaceRoot).None?
    case _ =>
      && Candidates(w, dir).Some?
      && exists c :: c in Candidates(w, dir).value && Judge(w, dir, c) == Refuse(reason)
  }

  // ---- the same, said of cargo and the file system alone ----

  /** `c` sits where `dir` sees it: the textual and the resolved offset agree. */
  ghost predicate InPlace(w: World, dir: Path, c: Path, resolved: Path) {
    RelativePath(dir, LexicalFrom([], c)) ==
    RelativePath(if w.canonicalize(dir).Some? then w.canonicalize(dir).value else dir, resolved)
  }

  /** The manifests and the cargo configuration of the workspace seen from `dir` can be read. */
  ghost predicate Readable(w: World, dir: Path) {
    && w.metadata(dir).Some?
    && var ws := w.metadata(dir).value.workspaceRoot;
    && w.overrides(ws).Some? && w.patches(ws).Some?
  }

  ghost predicate Mentions(w: World, dir: Path, c: Path) {
    && Readable(w, dir)
    && var m := w.metadata(dir).value;
    && (c in m.pathDeps || c in w.overrides(m.workspaceRoot).value || c in w.patches(m.workspaceRoot).value)
  }

  /** `r` is the resolved root of the workspace the directory `c` belongs to. */
  ghost predicate Owns(w: World, dir: Path, c: Path, r: Path) {
    && w.canonicalize(c).Some?
    && var resolved := w.canonicalize(c).value;
    && w.isDir(resolved) && InPlace(w, dir, c, resolved) && w.metadata(resolved).Some?
    && var ws := w.metadata(resolved).value.workspaceRoot;
    && r == if w.canonicalize(ws).Some? then w.canonicalize(ws).value else ws
  }

  /** Every path mentioned from `dir` exists, and is no directory or has its owner among `roots`. */
  ghost predicate AllOwned(w: World, dir: Path, roots: set<Path>) {
    Readable(w, dir) && forall c :: Mentions(w, dir, c) ==>
      w.canonicalize(c).Some? && (!w.isDir(w.canonicalize(c).value) || OwnedIn(w, dir, c, roots))
  }

  ghost predicate OwnedIn(w: World, dir: Path, c: Path, roots: set<Path>) {
    exists r :: r in roots && Owns(w, dir, c, r)
  }

  ghost predicate Step(w: World, dir: Path, r: Path) {
    exists c :: Mentions(w, dir, c) && Owns(w, dir, c, r)
  }

  /** The build gets from the first directory of the trail to the last. */
  ghost predicate Trail(w: World, trail: seq<Path>, root: Path, dir: Path) {
    && trail != [] && trail[0] == root && trail[|trail| - 1] == dir
    && forall i {:trigger trail[i]} :: 0 < i < |trail| ==> Step(w, trail[i - 1], trail[i])
  }

  /** The start is analysed; every analysed workspace is reached and has all it mentions among the
      roots; every root is mentioned by one, and was analysed or lies inside one that was. */
  ghost predicate Settles(w: World, root: Path, analysed: map<Path, Path>, roots: set<Path>) {
    && (exists ws :: ws in analysed && analysed[ws] == root)
    && (forall ws :: ws in analysed ==> AllOwned(w, analysed[ws], roots))
    && (forall ws :: ws in analysed ==> w.metadata(analysed[ws]).value.workspaceRoot == ws)
    && (forall ws :: ws in analysed ==> exists trail :: Trail(w, trail, root, analysed[ws]))
    && (forall r :: r in roots ==> exists ws :: ws in analysed && Step(w, analysed[ws], r))
    && (forall r :: r in roots ==>
        (w.metadata(r).Some? && w.metadata(r).value.workspaceRoot in analysed) ||
        exists ws :: ws in analysed && ws <= r)
  }

  /** What is wrong at `dir`, so many steps away. */
  ghost predicate Obstacle(w: World, dir: Path, steps: nat, reason: Reason) {
    match reason
    case TooDeep(d) => d == dir && steps == 5
    case NoMetadata(d) => d == dir && w.metadata(d) == None
    case BadOverrides(d) => d == dir && w.metadata(d).Some? && w.overrides(w.metadata(d).value.workspaceRoot) == None
    case BadPatches(d) =>
      && d == dir && w.metadata(d).Some?
      && w.overrides(w.metadata(d).value.workspaceRoot).Some?
      && w.patches(w.metadata(d).value.workspaceRoot) == None
    case Missing(c) => Mentions(w, dir, c) && w.canonicalize(c) == None
    case Symlinked(c) =>
      && Mentions(w, dir, c) && w.canonicalize(c).Some? && w.isDir(w.canonicalize(c).value)
      && !InPlace(w, dir, c, w.canonicalize(c).value)
    case NoOwner(c) =>
      && Mentions(w, dir, c) && w.canonicalize(c).Some? && w.isDir(w.canonicalize(c).value)
      && InPlace(w, dir, c, w.canonicalize(c).value) && w.metadata(w.canonicalize(c).value) == None
  }

  ghost predicate Obstructed(w: World, root: Path, reason: Reason) {
    exists trail, dir :: Trail(w, trail, root, dir) && |trail| <= 6 && Obstacle(w, dir, |trail| - 1, reason)
  }

  lemma MentionedExactly(w: World, dir: Path, c: Path)
    ensures Mentions(w, dir, c) <==> Candidates(w, dir).Some? && c in Candidates(w, dir).value
  {
  }

  lemma JudgedExactly(w: World, dir: Path, c: Path)
    ensures forall r :: Owns(w, dir, c, r) <==> Judge(w, dir, c) == Found(r)
    ensures Judge(w, dir, c) == Skip <==> w.canonicalize(c).Some? && !w.isDir(w.canonicalize(c).value)
  {
    hide RelativePath, LexicalFrom;
  }

  /** A hop is a step, so whatever is said of chains is said of trails. */
  lemma HopIsStep(w: World, dir: Path, r: Path)
    ensures Hop(w, dir, r) <==> Step(w, dir, r)
  {
    hide Candidates, Judge, Mentions, Owns;
    if Hop(w, dir, r) {
      var c :| c in Candidates(w, dir).value && Judge(w, dir, c) == Found(r);
      MentionedExactly(w, dir, c);
      JudgedExactly(w, dir, c);
    }
    if Step(w, dir, r) {
      var c :| Mentions(w, dir, c) && Owns(w, dir, c, r);
      MentionedExactly(w, dir, c);
      JudgedExactly(w, dir, c);
    }
  }

  lemma {:induction false} ChainIsTrail(w: World, root: Path, dir: Path, n: nat) returns (trail: seq<Path>)
    requires Chain(w, root, dir, n)
    ensures Trail(w, trail, root, dir) && |trail| == n + 1
    decreases n
  {
    hide Hop, Step;
    if n == 0 {
      trail := [root];
    } else {
      var mid :| Chain(w, root, mid, n - 1) && Hop(w, mid, dir);
      trail := ChainIsTrail(w, root, mid, n - 1);
      HopIsStep(w, mid, dir);
      trail := trail + [dir];
    }
  }

  lemma {:induction false} TrailIsChain(w: World, trail: seq<Path>, root: Path, dir: Path)
    requires Trail(w, trail, root, dir)
    ensures Chain(w, root, dir, |trail| - 1)
    decreases |trail|
  {
    hide Hop, Step;
    if |trail| > 1 {
      var before := trail[..|trail| - 1];
      TrailIsChain(w, before, root, before[|before| - 1]);
      assert Step(w, trail[|trail| - 2], trail[|trail| - 1]);
      HopIsStep(w, before[|before| - 1], dir);
    }
  }

  lemma FollowedIsOwned(w: World, dir: Path, roots: set<Path>)
    requires Followed(w, dir, roots)
    ensures AllOwned(w, dir, roots)
  {
    ReadableExactly(w, dir);
    hide Candidates, Judge, Mentions, Owns, Readable;
    forall c | Mentions(w, dir, c)
      ensures w.canonicalize(c).Some? && (!w.isDir(w.canonicalize(c).value) || OwnedIn(w, dir, c, roots)) {
      MentionedExactly(w, dir, c);
      assert Answered(w, dir, c, roots);
      JudgedExactly(w, dir, c);
      if Judge(w, dir, c).Found? {
        assert Owns(w, dir, c, Judge(w, dir, c).owner);
        FoundExists(w, dir, c);
      }
    }
  }

  lemma FoundExists(w: World, dir: Path, c: Path)
    requires Judge(w, dir, c).Found?
    ensures w.canonicalize(c).Some?
  {
  }

  lemma ReadableExactly(w: World, dir: Path)
    ensures Readable(w, dir) <==> Candidates(w, dir).Some?
  {
  }

  /** What the loop has established, in those terms. */
  lemma CompleteSettles(w: World, root: Path, analysed: map<Path, Path>, roots: set<Path>)
    requires Complete(w, root, analysed, roots)
    ensures Settles(w, root, analysed, roots)
  {
    hide Followed, Chain, Hop, AllOwned, Trail, Step;
    forall ws | ws in analysed
      ensures AllOwned(w, analysed[ws], roots) && exists trail :: Trail(w, trail, root, analysed[ws]) {
      FollowedIsOwned(w, analysed[ws], roots);
      var n: nat :| Chain(w, root, analysed[ws], n);
      var trail := ChainIsTrail(w, root, analysed[ws], n);
    }
    forall r | r in roots ensures exists ws :: ws in analysed && Step(w, analysed[ws], r) {
      var ws :| ws in analysed && Hop(w, analysed[ws], r);
      HopIsStep(w, analysed[ws], r);
    }
  }

  lemma WrongIsObstacle(w: World, dir: Path, steps: nat, reason: Reason)
    requires Wrong(w, dir, steps, reason)
    ensures Obstacle(w, dir, steps, reason)
  {
    hide RelativePath, LexicalFrom, Mentions, Candidates;
    match reason {
      case Missing(c) => MentionedExactly(w, dir, c);
      case Symlinked(c) => MentionedExactly(w, dir, c);
      case NoOwner(c) => MentionedExactly(w, dir, c);
      case _ =>
    }
  }

  lemma JustifiedIsObstructed(w: World, root: Path, reason: Reason)
    requires Justified(w, root, reason)
    ensures Obstructed(w, root, reason)
  {
    hide Chain, Wrong, Trail, Obstacle;
    var dir, n: nat :| Chain(w, root, dir, n) && n <= MAX_DEPTH + 1 && Wrong(w, dir, n, reason);
    var trail := ChainIsTrail(w, root, dir, n);
    WrongIsObstacle(w, dir, n, reason);
    assert Obstacle(w, dir, |trail| - 1, reason);
  }

  // ---- the worklist ----

  type Work = seq<(Path, nat)>

  /** How many waiting directories are `depth` hops away. */
  function Waiting(queue: Work, depth: nat): nat {
    if queue == [] then 0
    else Waiting(queue[..|queue| - 1], depth) + (if queue[|queue| - 1].1 == depth then 1 else 0)
  }

  lemma WaitingPush(queue: Work, item: (Path, nat), depth: nat)
    ensures Waiting(queue + [item], depth) == Waiting(queue, depth) + (if item.1 == depth then 1 else 0)
  {
    assert (queue + [item])[..|queue|] == queue;
  }

  ghost predicate Queued(queue: Work, dir: Path) {
    exists k :: 0 <= k < |queue| && queue[k].0 == dir
  }

  ghost predicate Reached(w: World, root: Path, queue: Work) {
    forall k :: 0 <= k < |queue| ==> queue[k].1 <= MAX_DEPTH + 1 && Chain(w, root, queue[k].0, queue[k].1)
  }

  ghost predicate SeenAnalysed(w: World, analysed: map<Path, Path>, seen: set<Path>) {
    forall d :: d in seen ==> Analysed(w, analysed, d)
  }

  /** Every root found so far is settled or waits in the queue. */
  ghost predicate Covered(w: World, analysed: map<Path, Path>, queue: Work, found: set<Path>) {
    forall r :: r in found ==> (Settled(w, analysed, r) || Queued(queue, r)) && Mentioned(w, analysed, r)
  }

  /** The candidates of one workspace, in order. */
  method Follow(w: World, root: Path, dir: Path, depth: nat, candidates: seq<Path>, ghost analysed: map<Path, Path>,
                visited: set<Path>, seen: set<Path>, found0: set<Path>, queue0: Work)
    returns (found: set<Path>, queue: Work, refusal: Option<Reason>)
    requires depth <= MAX_DEPTH && Chain(w, root, dir, depth)
    requires Candidates(w, dir) == Some(candidates)
    requires visited == analysed.Keys && SeenAnalysed(w, analysed, seen)
    requires From(analysed, dir)
    requires Reached(w, root, queue0) && Covered(w, analysed, queue0, found0)
    ensures refusal.Some? ==> Wrong(w, dir, depth, refusal.value) && Obstacle(w, dir, depth, refusal.value)
    ensures refusal.None? ==> Followed(w, dir, found) && AllOwned(w, dir, found)
    ensures forall r :: r in found && r !in found0 ==> Step(w, dir, r)
    ensures Reached(w, root, queue) && Covered(w, analysed, queue, found)
    ensures found0 <= found && queue0 <= queue
    ensures forall d: nat :: d <= depth ==> Waiting(queue, d) == Waiting(queue0, d)
  {
    hide Chain, Settled, Hop, Candidates, Mentioned, From, AllOwned, Step, Wrong, Obstacle, RelativePath, LexicalFrom;
    found, queue := found0, queue0;
    var canonicalDir := Or(w.canonicalize(dir), dir);
    for i := 0 to |candidates|
      invariant forall j :: 0 <= j < i ==> Answered(w, dir, candidates[j], found)
      invariant Reached(w, root, queue) && Covered(w, analysed, queue, found)
      invariant found0 <= found && queue0 <= queue
      invariant forall r :: r in found && r !in found0 ==> Step(w, dir, r)
      invariant forall d: nat :: d <= depth ==> Waiting(queue, d) == Waiting(queue0, d)
    {
      var candidate := candidates[i];
      var at := w.canonicalize(candidate);
      if at.None? {
        Refused(w, dir, depth, candidate, Missing(candidate));
        return found, queue, Some(Missing(candidate));
      }
      var canonical := at.value;
      if !w.isDir(canonical) {
        continue;
      }
      var lexical := Lexical(candidate);
      if RelativePath(dir, lexical) != RelativePath(canonicalDir, canonical) {
        Refused(w, dir, depth, candidate, Symlinked(candidate));
        return found, queue, Some(Symlinked(candidate));
      }
      var meta := w.metadata(canonical);
      if meta.None? {
        Refused(w, dir, depth, candidate, NoOwner(candidate));
        return found, queue, Some(NoOwner(candidate));
      }
      var owner := Or(w.canonicalize(meta.value.workspaceRoot), meta.value.workspaceRoot);
      assert Judge(w, dir, candidate) == Found(owner);
      FoundIsMentioned(w, analysed, dir, candidate, owner);
      found := found + {owner};
      var alreadyCovered := exists ws :: ws in visited && StartsWith(owner, ws);
      if !alreadyCovered && owner !in seen {
        HopExtends(w, root, dir, depth, owner);
        QueueGrows(w, root, analysed, queue, found - {owner}, (owner, depth + 1));
        forall d: nat
          ensures Waiting(queue + [(owner, depth + 1)], d) == Waiting(queue, d) + (if d == depth + 1 then 1 else 0)
        {
          WaitingPush(queue, (owner, depth + 1), d);
        }
        queue := queue + [(owner, depth + 1)];
      } else {
        CoveredIsSettled(w, analysed, visited, seen, owner);
      }
    }
    refusal := None;
    FollowedIsOwned(w, dir, found);
  }

  lemma Refused(w: World, dir: Path, depth: nat, candidate: Path, reason: Reason)
    requires Candidates(w, dir).Some? && candidate in Candidates(w, dir).value
    requires Judge(w, dir, candidate) == Refuse(reason)
    ensures Wrong(w, dir, depth, reason) && Obstacle(w, dir, depth, reason)
  {
    hide Candidates, RelativePath, LexicalFrom, Obstacle;
    assert Wrong(w, dir, depth, reason);
    WrongIsObstacle(w, dir, depth, reason);
  }

  lemma CoveredIsSettled(w: World, analysed: map<Path, Path>, visited: set<Path>, seen: set<Path>, owner: Path)
    requires visited == analysed.Keys && SeenAnalysed(w, analysed, seen)
    requires (exists ws :: ws in visited && StartsWith(owner, ws)) || owner in seen
    ensures Settled(w, analysed, owner)
  {
  }

  lemma QueueGrows(w: World, root: Path, analysed: map<Path, Path>, queue: Work, found: set<Path>, item: (Path, nat))
    requires Reached(w, root, queue) && Covered(w, analysed, queue, found)
    requires item.1 <= MAX_DEPTH + 1 && Chain(w, root, item.0, item.1) && Mentioned(w, analysed, item.0)
    ensures Reached(w, root, queue + [item]) && Covered(w, analysed, queue + [item], found + {item.0})
  {
    hide Settled, Mentioned, Chain;
    var longer := queue + [item];
    assert longer[|queue|] == item;
    forall dir | Queued(queue, dir) ensures Queued(longer, dir) {
      var k :| 0 <= k < |queue| && queue[k].0 == dir;
      assert longer[k].0 == dir;
    }
  }

  lemma FoundIsMentioned(w: World, analysed: map<Path, Path>, dir: Path, candidate: Path, owner: Path)
    requires From(analysed, dir)
    requires Candidates(w, dir).Some? && candidate in Candidates(w, dir).value &&
      Judge(w, dir, candidate) == Found(owner)
    ensures Hop(w, dir, owner) && Mentioned(w, analysed, owner) && Step(w, dir, owner)
  {
    hide Candidates, Judge, Step;
    assert Hop(w, dir, owner);
    HopIsStep(w, dir, owner);
  }

  lemma HopExtends(w: World, root: Path, dir: Path, n: nat, next: Path)
    requires Chain(w, root, dir, n) && Hop(w, dir, next)
    ensures Chain(w, root, next, n + 1)
  {
  }

  /** Taking the last item off: only its own directory may stop being covered. */
  lemma QueueShrinks(w: World, root: Path, analysed: map<Path, Path>, queue: Work, found: set<Path>)
    requires queue != [] && Reached(w, root, queue) && Covered(w, analysed, queue, found)
    ensures var (dir, depth) := queue[|queue| - 1]; var rest := queue[..|queue| - 1];
      && Reached(w, root, rest) && Chain(w, root, dir, depth) && depth <= MAX_DEPTH + 1
      && Covered(w, analysed, rest, found - {dir})
      && (dir in found ==> Mentioned(w, analysed, dir))
  {
    hide Settled, Mentioned, Chain;
    var rest := queue[..|queue| - 1];
    forall d | Queued(queue, d) && d != queue[|queue| - 1].0 ensures Queued(rest, d) {
      var k :| 0 <= k < |queue| && queue[k].0 == d;
      assert rest[k].0 == d;
    }
  }

  /** Analysing one more workspace unsettles nothing. */
  lemma AnalysedGrows(w: World, analysed: map<Path, Path>, ws: Path, dir: Path, queue: Work, seen: set<Path>,
                      found: set<Path>)
    requires ws !in analysed && w.metadata(dir).Some? && w.metadata(dir).value.workspaceRoot == ws
    requires SeenAnalysed(w, analysed, seen) && Covered(w, analysed, queue, found)
    ensures var more := analysed[ws := dir];
      SeenAnalysed(w, more, seen + {dir}) && Covered(w, more, queue, found) && Analysed(w, more, dir)
  {
    hide Hop, Queued;
    var more := analysed[ws := dir];
    forall r | r in found ensures (Settled(w, more, r) || Queued(queue, r)) && Mentioned(w, more, r) {
      if Inside(analysed, r) {
        var at :| at in analysed && StartsWith(r, at);
        assert at in more;
      }
      var at :| at in analysed && Hop(w, analysed[at], r);
      assert at in more && more[at] == analysed[at];
    }
  }

  /** A directory whose workspace is analysed needs no place in the queue. */
  lemma SettledAgain(w: World, analysed: map<Path, Path>, queue: Work, found: set<Path>, dir: Path)
    requires Covered(w, analysed, queue, found - {dir}) && Analysed(w, analysed, dir)
    requires dir in found ==> Mentioned(w, analysed, dir)
    ensures Covered(w, analysed, queue, found)
  {
    hide Mentioned;
    assert Settled(w, analysed, dir);
  }

  lemma FollowedGrows(w: World, analysed: map<Path, Path>, ws: Path, dir: Path, found: set<Path>, more: set<Path>)
    requires AllFollowed(w, analysed, found) && found <= more && ws !in analysed
    requires w.metadata(dir).Some? && w.metadata(dir).value.workspaceRoot == ws && Followed(w, dir, more)
    ensures AllFollowed(w, analysed[ws := dir], more)
  {
    hide Candidates, Judge;
  }

  lemma WaitingPop(queue: Work, depth: nat)
    requires queue != []
    ensures Waiting(queue[..|queue| - 1], depth) ==
      Waiting(queue, depth) - (if queue[|queue| - 1].1 == depth then 1 else 0)
  {
  }

  /** What the loop keeps. */
  ghost predicate Progress(w: World, root: Path, analysed: map<Path, Path>, queue: Work, seen: set<Path>,
                           visited: set<Path>, found: set<Path>) {
    && visited == analysed.Keys
    && AllFollowed(w, analysed, found)
    && SeenAnalysed(w, analysed, seen)
    && Reached(w, root, queue)
    && Covered(w, analysed, queue, found)
    && AllReachable(w, root, analysed)
    && (From(analysed, root) || (analysed == map[] && seen == {} && queue == [(root, 0)]))
  }

  lemma ProgressAtEnd(w: World, root: Path, analysed: map<Path, Path>, seen: set<Path>, visited: set<Path>,
                      found: set<Path>)
    requires Progress(w, root, analysed, [], seen, visited, found)
    ensures Complete(w, root, analysed, found) && Settles(w, root, analysed, found)
  {
    hide Settles, Settled, Mentioned, AllFollowed, Chain;
    assert Complete(w, root, analysed, found);
    CompleteSettles(w, root, analysed, found);
  }

  /** `cargo_path_dependencies`. A complete answer is one that was followed to the end; anything
      that cannot be settled gives up every root, and says what it was. */
  method CargoPathDependencies(w: World, root: Path) returns (d: Discovery, ghost analysed: map<Path, Path>)
    ensures d.complete ==> d.note.None? && Complete(w, root, analysed, d.roots)
    ensures !d.complete ==> d.roots == {} && d.note.Some? && Justified(w, root, d.note.value)
    ensures d.complete ==> Settles(w, root, analysed, d.roots)
    ensures !d.complete ==> Obstructed(w, root, d.note.value)
  {
    hide Settles, Obstructed, Progress, Chain, Candidates, Judge, Covered, Reached, AllFollowed, SeenAnalysed,
      Analysed, Followed, Complete, Justified;
    var found, seen, visited := {}, {}, {};
    var queue: Work := [(root, 0)];
    analysed := map[];
    Start(w, root);
    while queue != []
      invariant Progress(w, root, analysed, queue, seen, visited, found)
      decreases Waiting(queue, 0), Waiting(queue, 1), Waiting(queue, 2), Waiting(queue, 3), Waiting(queue, 4),
        Waiting(queue, 5)
    {
      var (dir, depth) := queue[|queue| - 1];
      ghost var before := queue;
      ProgressParts(w, root, analysed, queue, seen, visited, found);
      QueueShrinks(w, root, analysed, queue, found);
      forall k: nat ensures Waiting(queue[..|queue| - 1], k) == Waiting(queue, k) - (if depth == k then 1 else 0) {
        WaitingPop(queue, k);
      }
      queue := queue[..|queue| - 1];
      if dir in seen {
        DropSeen(w, root, analysed, before, seen, visited, found);
        continue;
      }
      seen := seen + {dir};
      if depth > MAX_DEPTH {
        Justify(w, root, dir, depth, TooDeep(dir));
        return Discovery({}, false, Some(TooDeep(dir))), analysed;
      }
      var meta := w.metadata(dir);
      if meta.None? {
        Justify(w, root, dir, depth, NoMetadata(dir));
        return Discovery({}, false, Some(NoMetadata(dir))), analysed;
      }
      var ws := meta.value.workspaceRoot;
      if ws in visited {
        VisitedIsAnalysed(w, root, analysed, before, seen - {dir}, visited, found, dir);
        DropVisited(w, root, analysed, before, seen - {dir}, visited, found);
        assert seen - {dir} + {dir} == seen;
        continue;
      }
      visited := visited + {ws};
      var more := w.overrides(ws);
      if more.None? {
        Justify(w, root, dir, depth, BadOverrides(dir));
        return Discovery({}, false, Some(BadOverrides(dir))), analysed;
      }
      var patches := w.patches(ws);
      if patches.None? {
        Justify(w, root, dir, depth, BadPatches(dir));
        return Discovery({}, false, Some(BadPatches(dir))), analysed;
      }
      var candidates := meta.value.pathDeps + more.value + patches.value;
      CandidatesAre(w, dir, candidates);
      Enter(w, root, analysed, before, seen - {dir}, visited - {ws}, found);
      assert seen - {dir} + {dir} == seen && visited - {ws} + {ws} == visited;
      ghost var earlier, former := found, analysed;
      analysed := analysed[ws := dir];
      var refusal;
      found, queue, refusal := Follow(w, root, dir, depth, candidates, analysed, visited, seen, found, queue);
      if refusal.Some? {
        Justify(w, root, dir, depth, refusal.value);
        return Discovery({}, false, refusal), analysed;
      }
      FollowedGrows(w, former, ws, dir, earlier, found);
      Leave(w, root, analysed, queue, seen, visited, found);
    }
    ProgressAtEnd(w, root, analysed, seen, visited, found);
    d := Discovery(found, true, None);
  }

  lemma ProgressParts(w: World, root: Path, analysed: map<Path, Path>, queue: Work, seen: set<Path>,
                      visited: set<Path>, found: set<Path>)
    requires Progress(w, root, analysed, queue, seen, visited, found)
    ensures visited == analysed.Keys && Reached(w, root, queue) && Covered(w, analysed, queue, found)
  {
  }

  lemma VisitedIsAnalysed(w: World, root: Path, analysed: map<Path, Path>, queue: Work, seen: set<Path>,
                          visited: set<Path>, found: set<Path>, dir: Path)
    requires Progress(w, root, analysed, queue, seen, visited, found)
    requires w.metadata(dir).Some? && w.metadata(dir).value.workspaceRoot in visited
    ensures Analysed(w, analysed, dir)
  {
  }

  lemma CandidatesAre(w: World, dir: Path, candidates: seq<Path>)
    requires w.metadata(dir).Some?
    requires var ws := w.metadata(dir).value.workspaceRoot;
      w.overrides(ws).Some? && w.patches(ws).Some? &&
        candidates == w.metadata(dir).value.pathDeps + w.overrides(ws).value + w.patches(ws).value
    ensures Candidates(w, dir) == Some(candidates)
  {
  }

  lemma Start(w: World, root: Path)
    ensures Progress(w, root, map[], [(root, 0)], {}, {}, {})
  {
    assert [(root, 0 as nat)][0].0 == root;
  }

  lemma Justify(w: World, root: Path, dir: Path, n: nat, reason: Reason)
    requires Chain(w, root, dir, n) && n <= MAX_DEPTH + 1 && Wrong(w, dir, n, reason)
    ensures Justified(w, root, reason) && Obstructed(w, root, reason)
  {
    hide Chain, Wrong, Obstructed;
    assert Justified(w, root, reason);
    JustifiedIsObstructed(w, root, reason);
  }

  lemma DropSeen(w: World, root: Path, analysed: map<Path, Path>, queue: Work, seen: set<Path>, visited: set<Path>,
                 found: set<Path>)
    requires queue != [] && Progress(w, root, analysed, queue, seen, visited, found) && queue[|queue| - 1].0 in seen
    ensures Progress(w, root, analysed, queue[..|queue| - 1], seen, visited, found)
  {
    var dir := queue[|queue| - 1].0;
    assert Analysed(w, analysed, dir);
    hide Covered, Reached, AllFollowed, Analysed;
    QueueShrinks(w, root, analysed, queue, found);
    SettledAgain(w, analysed, queue[..|queue| - 1], found, dir);
  }

  lemma DropVisited(w: World, root: Path, analysed: map<Path, Path>, queue: Work, seen: set<Path>,
                    visited: set<Path>, found: set<Path>)
    requires queue != [] && Progress(w, root, analysed, queue, seen, visited, found)
    requires Analysed(w, analysed, queue[|queue| - 1].0)
    ensures Progress(w, root, analysed, queue[..|queue| - 1], seen + {queue[|queue| - 1].0}, visited, found)
  {
    var dir := queue[|queue| - 1].0;
    hide Covered, Reached, AllFollowed, Analysed;
    QueueShrinks(w, root, analysed, queue, found);
    SettledAgain(w, analysed, queue[..|queue| - 1], found, dir);
  }

  lemma Enter(w: World, root: Path, analysed: map<Path, Path>, queue: Work, seen: set<Path>, visited: set<Path>,
              found: set<Path>)
    requires queue != [] && Progress(w, root, analysed, queue, seen, visited, found)
    requires var dir := queue[|queue| - 1].0; w.metadata(dir).Some? && w.metadata(dir).value.workspaceRoot !in visited
    ensures var dir := queue[|queue| - 1].0; var ws := w.metadata(dir).value.workspaceRoot;
      && (visited + {ws} == analysed[ws := dir].Keys)
      && AllFollowed(w, analysed, found)
      && SeenAnalysed(w, analysed[ws := dir], seen + {dir})
      && Reached(w, root, queue[..|queue| - 1])
      && Covered(w, analysed[ws := dir], queue[..|queue| - 1], found)
      && From(analysed[ws := dir], root) && From(analysed[ws := dir], dir)
      && AllReachable(w, root, analysed[ws := dir])
  {
    var dir := queue[|queue| - 1].0;
    var ws := w.metadata(dir).value.workspaceRoot;
    var rest := queue[..|queue| - 1];
    hide Covered, Reached, AllFollowed, SeenAnalysed, Analysed, Mentioned, Queued;
    FromGrows(analysed, ws, dir, root);
    QueueShrinks(w, root, analysed, queue, found);
    ReachableGrows(w, root, analysed, ws, dir, queue[|queue| - 1].1);
    hide From, AllReachable;
    AnalysedGrows(w, analysed, ws, dir, rest, seen, found - {dir});
    MentionedGrows(w, analysed, ws, dir, dir);
    SettledAgain(w, analysed[ws := dir], rest, found, dir);
  }

  lemma ReachableGrows(w: World, root: Path, analysed: map<Path, Path>, ws: Path, dir: Path, n: nat)
    requires AllReachable(w, root, analysed) && Chain(w, root, dir, n)
    ensures AllReachable(w, root, analysed[ws := dir])
  {
    hide Chain;
    assert Reachable(w, root, dir);
  }

  lemma FromGrows(analysed: map<Path, Path>, ws: Path, dir: Path, d: Path)
    requires ws !in analysed
    ensures From(analysed[ws := dir], dir)
    ensures From(analysed, d) ==> From(analysed[ws := dir], d)
  {
    var more := analysed[ws := dir];
    assert ws in more && more[ws] == dir;
    if From(analysed, d) {
      var at :| at in analysed && analysed[at] == d;
      assert at in more && more[at] == d;
    }
  }

  lemma MentionedGrows(w: World, analysed: map<Path, Path>, ws: Path, dir: Path, r: Path)
    requires ws !in analysed
    ensures Mentioned(w, analysed, r) ==> Mentioned(w, analysed[ws := dir], r)
  {
    hide Hop;
    if Mentioned(w, analysed, r) {
      var at :| at in analysed && Hop(w, analysed[at], r);
      assert at in analysed[ws := dir] && analysed[ws := dir][at] == analysed[at];
    }
  }

  lemma Leave(w: World, root: Path, analysed: map<Path, Path>, queue: Work, seen: set<Path>, visited: set<Path>,
              found: set<Path>)
    requires visited == analysed.Keys && AllFollowed(w, analysed, found) && SeenAnalysed(w, analysed, seen)
    requires Reached(w, root, queue) && Covered(w, analysed, queue, found)
    requires From(analysed, root) && AllReachable(w, root, analysed)
    ensures Progress(w, root, analysed, queue, seen, visited, found)
  {
    hide Covered, Reached, AllFollowed, SeenAnalysed, From;
  }

  // ---- how far a complete answer reaches ----

  /** Everything the workspace seen from `dir` leads to is a root. */
  ghost predicate HopsWithin(w: World, dir: Path, roots: set<Path>) {
    forall r :: Hop(w, dir, r) ==> r in roots
  }

  lemma AnalysedHopsWithin(w: World, analysed: map<Path, Path>, roots: set<Path>, dir: Path)
    requires AllFollowed(w, analysed, roots) && From(analysed, dir)
    ensures HopsWithin(w, dir, roots)
  {
    var ws :| ws in analysed && analysed[ws] == dir;
    assert Followed(w, dir, roots);
    hide AllFollowed, Candidates, Judge;
    forall r | Hop(w, dir, r) ensures r in roots {
      var c :| c in Candidates(w, dir).value && Judge(w, dir, c) == Found(r);
      assert Answered(w, dir, c, roots);
    }
  }

  lemma {:induction false} ChainStaysWithin(w: World, root: Path, roots: set<Path>, dir: Path, n: nat)
    requires HopsWithin(w, root, roots)
    requires forall r :: r in roots && Reachable(w, root, r) ==> HopsWithin(w, r, roots)
    requires n > 0 && Chain(w, root, dir, n)
    ensures dir in roots
    decreases n
  {
    var mid :| Chain(w, root, mid, n - 1) && Hop(w, mid, dir);
    if n > 1 {
      ChainStaysWithin(w, root, roots, mid, n - 1);
      assert Reachable(w, root, mid);
    }
    hide Hop, Reachable, Chain;
    assert HopsWithin(w, mid, roots);
  }

  /** Wherever the build gets is a root. */
  ghost predicate HoldsReach(w: World, root: Path, roots: set<Path>) {
    forall dir, n: nat :: n > 0 && Chain(w, root, dir, n) ==> dir in roots
  }

  /** The roots that were settled as lying inside an analysed workspace, without being analysed
      themselves, lead nowhere beyond the roots. */
  ghost predicate InnerStayWithin(w: World, root: Path, analysed: map<Path, Path>, roots: set<Path>) {
    forall r :: r in roots && Reachable(w, root, r) && !From(analysed, r) ==> HopsWithin(w, r, roots)
  }

  /** In trails: wherever one of them leads is a root. */
  lemma HoldsReachByTrails(w: World, root: Path, roots: set<Path>)
    ensures HoldsReach(w, root, roots) <==>
      forall trail, dir :: Trail(w, trail, root, dir) && |trail| > 1 ==> dir in roots
  {
    hide Chain, Trail;
    if HoldsReach(w, root, roots) {
      forall trail, dir | Trail(w, trail, root, dir) && |trail| > 1 ensures dir in roots {
        TrailIsChain(w, trail, root, dir);
      }
    }
    if forall trail, dir :: Trail(w, trail, root, dir) && |trail| > 1 ==> dir in roots {
      forall dir, n: nat | n > 0 && Chain(w, root, dir, n) ensures dir in roots {
        var trail := ChainIsTrail(w, root, dir, n);
      }
    }
  }

  lemma HopReachable(w: World, root: Path, dir: Path, next: Path)
    requires Reachable(w, root, dir) && Hop(w, dir, next)
    ensures exists n: nat :: n > 0 && Chain(w, root, next, n)
  {
    var n: nat :| Chain(w, root, dir, n);
    HopExtends(w, root, dir, n, next);
  }

  lemma ReachableHopsWithin(w: World, root: Path, roots: set<Path>, dir: Path)
    requires Reachable(w, root, dir) && HoldsReach(w, root, roots)
    ensures HopsWithin(w, dir, roots)
  {
    forall next | Hop(w, dir, next) ensures next in roots {
      hide Hop, Reachable, Chain;
      HopReachable(w, root, dir, next);
    }
  }

  lemma InnerSuffice(w: World, root: Path, analysed: map<Path, Path>, roots: set<Path>)
    requires Complete(w, root, analysed, roots) && InnerStayWithin(w, root, analysed, roots)
    ensures HoldsReach(w, root, roots)
  {
    hide AllFollowed, AllReachable, From, Settled, Mentioned, Chain, Reachable, HopsWithin;
    AnalysedHopsWithin(w, analysed, roots, root);
    forall r | r in roots && Reachable(w, root, r) ensures HopsWithin(w, r, roots) {
      if From(analysed, r) { AnalysedHopsWithin(w, analysed, roots, r); }
    }
    forall dir, n: nat | n > 0 && Chain(w, root, dir, n) ensures dir in roots {
      ChainStaysWithin(w, root, roots, dir, n);
    }
  }

  /** A complete answer holds everything the build gets to exactly when the roots inside analysed
      workspaces lead nowhere beyond it. */
  lemma TransitiveExactly(w: World, root: Path, analysed: map<Path, Path>, roots: set<Path>)
    requires Complete(w, root, analysed, roots)
    ensures HoldsReach(w, root, roots) <==> InnerStayWithin(w, root, analysed, roots)
  {
    hide Complete, From, Reachable, HopsWithin, HoldsReach;
    if HoldsReach(w, root, roots) {
      forall r | r in roots && Reachable(w, root, r) ensures HopsWithin(w, r, roots) {
        ReachableHopsWithin(w, root, roots, r);
      }
    } else if InnerStayWithin(w, root, analysed, roots) {
      InnerSuffice(w, root, analysed, roots);
    }
  }

  // ---- worlds in which nothing is left out ----

  /** The workspace a directory the build gets to belongs to, as far as one is found. */
  ghost predicate Belongs(w: World, root: Path, dir: Path, ws: Path) {
    Reachable(w, root, dir) && w.metadata(dir).Some? && w.metadata(dir).value.workspaceRoot == ws
  }

  /** Directories of one workspace are told the same dependencies. */
  ghost predicate OneAnswer(w: World, root: Path) {
    forall a, b, ws :: Belongs(w, root, a, ws) && Belongs(w, root, b, ws) ==>
      w.metadata(a).value.pathDeps == w.metadata(b).value.pathDeps
  }

  /** A workspace root the build gets to is the root of its own workspace. */
  ghost predicate OwnRoots(w: World, root: Path) {
    forall a, ws, own :: Belongs(w, root, a, ws) && Belongs(w, root, ws, own) ==> own == ws
  }

  /** No directory the build gets to lies inside a workspace it gets to and belongs to another one. */
  ghost predicate NoneNested(w: World, root: Path) {
    forall a, r, ws, own :: Belongs(w, root, a, ws) && Belongs(w, root, r, own) && StartsWith(r, ws) && r != ws ==>
      own == ws
  }

  lemma SameCandidates(w: World, root: Path, a: Path, b: Path)
    requires OneAnswer(w, root) && Reachable(w, root, a) && Reachable(w, root, b)
    requires w.metadata(a).Some? && w.metadata(b).Some?
    requires w.metadata(a).value.workspaceRoot == w.metadata(b).value.workspaceRoot
    ensures Candidates(w, a) == Candidates(w, b)
  {
    hide Reachable;
    var ws := w.metadata(a).value.workspaceRoot;
    assert Belongs(w, root, a, ws) && Belongs(w, root, b, ws);
  }

  /** Which root owns a path does not depend on where it was mentioned. */
  lemma SameOwner(w: World, a: Path, b: Path, c: Path, r: Path)
    requires Judge(w, a, c) == Found(r) && !Judge(w, b, c).Refuse?
    ensures Judge(w, b, c) == Found(r)
  {
  }

  /** So one analysis of a workspace speaks for all its directories. */
  lemma WorkspaceHopsWithin(w: World, root: Path, analysed: map<Path, Path>, roots: set<Path>, r: Path)
    requires OneAnswer(w, root) && AllReachable(w, root, analysed) && AllFollowed(w, analysed, roots)
    requires Reachable(w, root, r) && Analysed(w, analysed, r)
    ensures HopsWithin(w, r, roots)
  {
    var ws := w.metadata(r).value.workspaceRoot;
    var d := analysed[ws];
    assert Reachable(w, root, d) && w.metadata(d).Some? && w.metadata(d).value.workspaceRoot == ws;
    assert Followed(w, d, roots);
    SameCandidates(w, root, r, d);
    hide OneAnswer, AllReachable, AllFollowed, Reachable, Candidates, Judge;
    forall x | Hop(w, r, x) ensures x in roots {
      var c :| c in Candidates(w, r).value && Judge(w, r, c) == Found(x);
      assert Answered(w, d, c, roots);
      SameOwner(w, r, d, c, x);
    }
  }

  lemma InsideIsAnalysed(w: World, root: Path, analysed: map<Path, Path>, roots: set<Path>, r: Path)
    requires OwnRoots(w, root) && NoneNested(w, root)
    requires AllReachable(w, root, analysed) && AllFollowed(w, analysed, roots)
    requires Reachable(w, root, r) && w.metadata(r).Some? && Inside(analysed, r)
    ensures Analysed(w, analysed, r)
  {
    hide Reachable, Followed;
    var ws :| ws in analysed && StartsWith(r, ws);
    var a, own := analysed[ws], w.metadata(r).value.workspaceRoot;
    assert Belongs(w, root, a, ws) && Belongs(w, root, r, own);
  }

  /** Where no crate the build gets to is a workspace of its own inside another's, a complete answer
      holds everything the build gets to. */
  lemma FlatIsTransitive(w: World, root: Path, analysed: map<Path, Path>, roots: set<Path>)
    requires OneAnswer(w, root) && OwnRoots(w, root) && NoneNested(w, root)
    requires Complete(w, root, analysed, roots)
    ensures HoldsReach(w, root, roots)
  {
    CompleteParts(w, root, analysed, roots);
    hide OneAnswer, OwnRoots, NoneNested, AllReachable, AllFollowed, Complete, Reachable, Analysed, Inside,
      HopsWithin, HoldsReach;
    forall r | r in roots && Reachable(w, root, r) && !From(analysed, r) ensures HopsWithin(w, r, roots) {
      if w.metadata(r).None? {
        NothingHops(w, r, roots);
      } else {
        if !Analysed(w, analysed, r) { InsideIsAnalysed(w, root, analysed, roots, r); }
        WorkspaceHopsWithin(w, root, analysed, roots, r);
      }
    }
    assert InnerStayWithin(w, root, analysed, roots);
    TransitiveExactly(w, root, analysed, roots);
  }

  lemma CompleteParts(w: World, root: Path, analysed: map<Path, Path>, roots: set<Path>)
    requires Complete(w, root, analysed, roots)
    ensures AllReachable(w, root, analysed) && AllFollowed(w, analysed, roots)
    ensures forall r :: r in roots ==> Analysed(w, analysed, r) || Inside(analysed, r)
  {
    hide AllReachable, AllFollowed, Mentioned, From, Analysed, Inside;
  }

  lemma NothingHops(w: World, dir: Path, roots: set<Path>)
    requires w.metadata(dir).None?
    ensures HopsWithin(w, dir, roots)
  {
  }

  /** A crate inside the start's workspace that is a workspace of its own, with a dependency outside. */
  function NestedWorkspace(a: Path, b: Path, c: Path): World {
    World((p: Path) => if p == a then Some(Meta(a, [b])) else if p == b then Some(Meta(b, [c]))
                       else if p == c then Some(Meta(c, [])) else None,
          (p: Path) => Some([]), (p: Path) => Some([]), (p: Path) => Some(p), (p: Path) => true)
  }

  predicate ThreePlaces(a: Path, b: Path, c: Path) {
    a != b && a <= b && c != a && c != b && LexicalFrom([], b) == b && LexicalFrom([], c) == c
  }

  lemma NestedCandidates(a: Path, b: Path, c: Path)
    requires a != b
    ensures Candidates(NestedWorkspace(a, b, c), a) == Some([b])
    ensures Candidates(NestedWorkspace(a, b, c), b) == Some([c])
    ensures NestedWorkspace(a, b, c).metadata(a) == Some(Meta(a, [b]))
  {
    assert [b] + [] + [] == [b] && [c] + [] + [] == [c];
  }

  lemma NestedJudged(a: Path, b: Path, c: Path)
    requires ThreePlaces(a, b, c)
    ensures Judge(NestedWorkspace(a, b, c), a, b) == Found(b)
    ensures Judge(NestedWorkspace(a, b, c), b, c) == Found(c)
  {
    hide RelativePath, LexicalFrom;
  }

  lemma HopTo(w: World, dir: Path, next: Path)
    requires Candidates(w, dir) == Some([next]) && Judge(w, dir, next) == Found(next)
    ensures Hop(w, dir, next)
    ensures forall roots :: next in roots ==> Followed(w, dir, roots)
  {
    hide Candidates, Judge;
    assert [next][0] == next;
  }

  lemma OneAnalysed(w: World, a: Path, b: Path)
    requires w.metadata(a).Some? && w.metadata(a).value.workspaceRoot == a && a <= b
    requires Hop(w, a, b) && Followed(w, a, {b})
    ensures Complete(w, a, map[a := a], {b})
  {
    hide Hop, Followed;
    var analysed := map[a := a];
    assert a in analysed && analysed[a] == a;
    assert StartsWith(b, a);
    assert Inside(analysed, b) && Mentioned(w, analysed, b);
    assert Chain(w, a, a, 0);
    assert Reachable(w, a, a);
  }

  /** There the answer {b} is complete, though the build gets to `c`. */
  lemma NestedWorkspaceStops(a: Path, b: Path, c: Path)
    requires ThreePlaces(a, b, c)
    ensures var w := NestedWorkspace(a, b, c);
      Complete(w, a, map[a := a], {b}) && Chain(w, a, c, 2) && !HoldsReach(w, a, {b})
  {
    hide *;
    var w := NestedWorkspace(a, b, c);
    ThreeApart(a, b, c);
    NestedJudged(a, b, c);
    NestedCandidates(a, b, c);
    HopTo(w, a, b);
    HopTo(w, b, c);
    OneAnalysed(w, a, b);
    TwoHops(w, a, b, c);
    NotHeld(w, a, {b}, c, 2);
  }

  lemma ThreeApart(a: Path, b: Path, c: Path)
    requires ThreePlaces(a, b, c)
    ensures a <= b && a != b && b != c
  {
  }

  lemma NotHeld(w: World, root: Path, roots: set<Path>, dir: Path, n: nat)
    requires n > 0 && Chain(w, root, dir, n) && dir !in roots
    ensures !HoldsReach(w, root, roots)
  {
    hide Chain;
  }

  lemma TwoHops(w: World, a: Path, b: Path, c: Path)
    requires Hop(w, a, b) && Hop(w, b, c)
    ensures Chain(w, a, c, 2)
  {
    hide Hop;
    assert Chain(w, a, a, 0);
    HopExtends(w, a, a, 0, b);
    HopExtends(w, a, b, 1, c);
  }
}
