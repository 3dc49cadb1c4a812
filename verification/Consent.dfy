/** Which directories outside a repository may be uploaded (crates/rc-agent/src/consent.rs and the
    outermost-directory rule of crates/rc-agent/src/multiroot.rs). */
module Consent {
  import opened Text
  import opened Sorting
  import opened Paths
  import Profile
  import opened Discover

  const AUTO: Str := Ascii("auto")

  datatype Consent = Approved(roots: seq<Path>) | Blocked(pending: seq<Path>, snippet: seq<Str>)

  // ---- a directory as the snippet names it ----

  /** `replace('\\', "/")`. */
  function Slashed(s: Str): (r: Str)
    ensures |r| == |s|
    ensures forall k :: 0 <= k < |s| ==> r[k] == if s[k] == BACKSLASH then SLASH else s[k]
  {
    seq(|s|, k requires 0 <= k < |s| => if s[k] == BACKSLASH then SLASH else s[k])
  }

  function Parent(p: Path): Option<Path> {
    if p == [] || p == [RootDir] then None else Some(p[..|p| - 1])
  }

  /** The text of an absolute path. */
  function Shown(p: Path): Str {
    if p != [] && p[0] == RootDir then [SLASH] + Join(Texts(p[1..]), [SLASH]) else Join(Texts(p), [SLASH])
  }

  function Ups(n: nat): (r: seq<Str>)
    ensures |r| == n
  {
    seq(n, _ => DOTS)
  }

  function DisplayFrom(ups: nat, rest: Path): Str {
    var text := Slashed(Join(Texts(rest), [SLASH]));
    var parts := if text == [] then Ups(ups) else Ups(ups) + [text];
    if parts == [] then DOT else Join(parts, [SLASH])
  }

  /** What the snippet says: up to the directories two paths share, then down. */
  function Display(root: Path, target: Path): Str {
    if StartsWith(target, root[..Shared(root, target)]) &&
      (root != [] && root[0] == RootDir ==> Shared(root, target) > 0)
    then DisplayFrom(|root| - Shared(root, target), target[Shared(root, target)..])
    else Shown(target)
  }

  /** `display_relative`. */
  method DisplayRelative(root: Path, target: Path) returns (text: Str)
    requires Canonical(root)
    ensures text == Display(root, target)
  {
    var base := root;
    var ups: seq<Str> := [];
    while true
      invariant base <= root && base != []
      invariant |ups| == |root| - |base| && ups == Ups(|ups|)
      invariant Shared(root, target) <= |base|
      decreases |base|
    {
      SharedAtLeast(root, target, base);
      if StartsWith(target, base) {
        var rest := Slashed(Join(Texts(target[|base|..]), [SLASH]));
        var parts := ups;
        if rest != [] {
          parts := parts + [rest];
        }
        if parts == [] {
          return DOT;
        }
        return Join(parts, [SLASH]);
      }
      var parent := Parent(base);
      if parent.None? {
        return Shown(target);
      }
      ups := ups + [DOTS];
      base := parent.value;
    }
  }

  lemma SharedAtLeast(root: Path, target: Path, base: Path)
    requires base <= root
    ensures StartsWith(target, base) ==> |base| <= Shared(root, target)
    ensures Shared(root, target) == |base| ==> StartsWith(target, base)
  {
    var n := Shared(root, target);
    var next := if n < |base| then base[n] else RootDir;
  }

  // ---- an entry as the policy reads it ----

  /** `repo_root.join(entry)`, component by component; `.` vanishes after the first component. */
  function Joined(root: Path, entry: Str): Path {
    var p := Parse(entry);
    if p != [] && p[0] == RootDir then p
    else if p != [] && p[0] == CurDir then root + p[1..]
    else root + p
  }

  /** `resolve_relative`; `canonicalize` fails for what does not exist. */
  function ResolveRelative(canonicalize: Path -> Option<Path>, root: Path, entry: Str): Path {
    var joined := Joined(root, entry);
    if canonicalize(joined).Some? then canonicalize(joined).value else joined
  }

  function Allowed(canonicalize: Path -> Option<Path>, root: Path, entries: seq<Str>): (r: seq<Path>)
    ensures |r| == |entries|
    ensures forall k :: 0 <= k < |r| ==> r[k] == ResolveRelative(canonicalize, root, entries[k])
  {
    seq(|entries|, k requires 0 <= k < |entries| => ResolveRelative(canonicalize, root, entries[k]))
  }

  /** The entries a blocked call tells the developer to paste. */
  function Snippet(root: Path, pending: seq<Path>): (r: seq<Str>)
    ensures |r| == |pending|
    ensures forall k :: 0 <= k < |r| ==> r[k] == Display(root, pending[k])
  {
    seq(|pending|, k requires 0 <= k < |pending| => Display(root, pending[k]))
  }

  predicate IsAuto(policy: Profile.ExtraRoots) {
    policy.Mode? && Fold(policy.mode) == AUTO
  }

  predicate CoveredBy(d: Path, allowed: seq<Path>) {
    exists a :: a in allowed && StartsWith(d, a)
  }

  function Evaluate(canonicalize: Path -> Option<Path>, root: Path, discovered: seq<Path>,
                    policy: Option<Profile.ExtraRoots>): Consent {
    if discovered == [] then Approved([])
    else match policy
      case None => Blocked(discovered, Snippet(root, discovered))
      case Some(p) =>
        if IsAuto(p) then Approved(discovered)
        else if p == Profile.Allow([]) then Approved([])
        else
          var allowed := if p.Allow? then Allowed(canonicalize, root, p.paths) else [];
          var unapproved := Filter(d => !CoveredBy(d, allowed), discovered);
          if unapproved == [] then Approved(discovered) else Blocked(unapproved, Snippet(root, unapproved))
  }

  lemma {:induction false} FilterMembers<T>(p: T -> bool, s: seq<T>, x: T)
    ensures x in Filter(p, s) <==> x in s && p(x)
  {
    if s != [] {
      FilterMembers(p, s[1..], x);
      assert s == [s[0]] + s[1..];
    }
  }

  /** An upload needs a standing answer for every directory: what is approved is everything or
      nothing, and what is held back is exactly what no entry covers. */
  lemma NothingUnapprovedPasses(canonicalize: Path -> Option<Path>, root: Path, discovered: seq<Path>,
                                policy: Option<Profile.ExtraRoots>)
    requires discovered != [] && policy.Some? && policy.value.Allow? && policy.value.paths != []
    ensures var r := Evaluate(canonicalize, root, discovered, policy);
      var allowed := Allowed(canonicalize, root, policy.value.paths);
      && (r == Approved(discovered) <==> forall d :: d in discovered ==> CoveredBy(d, allowed))
      && (r.Approved? ==> r.roots == discovered)
      && (r.Blocked? ==> forall d :: d in r.pending <==> d in discovered && !CoveredBy(d, allowed))
  {
    var allowed := Allowed(canonicalize, root, policy.value.paths);
    var unapproved := Filter(d => !CoveredBy(d, allowed), discovered);
    forall d ensures d in unapproved <==> d in discovered && !CoveredBy(d, allowed) {
      FilterMembers(d => !CoveredBy(d, allowed), discovered, d);
    }
    if unapproved != [] {
      assert unapproved[0] in unapproved;
    }
  }

  /** A directory is covered exactly by an entry that, joined to the repository root and resolved where it
      exists, is the directory or lies around it. */
  lemma CoveredExactly(canonicalize: Path -> Option<Path>, root: Path, entries: seq<Str>, d: Path)
    ensures CoveredBy(d, Allowed(canonicalize, root, entries)) <==>
      exists k :: 0 <= k < |entries| && LiesUnder(canonicalize, root, entries[k], d)
  {
    hide Joined;
    var allowed := Allowed(canonicalize, root, entries);
    if CoveredBy(d, allowed) {
      var a :| a in allowed && StartsWith(d, a);
      var k :| 0 <= k < |allowed| && allowed[k] == a;
      assert LiesUnder(canonicalize, root, entries[k], d);
    }
    if k :| 0 <= k < |entries| && LiesUnder(canonicalize, root, entries[k], d) {
      assert allowed[k] in allowed && StartsWith(d, allowed[k]);
    }
  }

  ghost predicate LiesUnder(canonicalize: Path -> Option<Path>, root: Path, entry: Str, d: Path) {
    var joined := Joined(root, entry);
    (if canonicalize(joined).Some? then canonicalize(joined).value else joined) <= d
  }

  /** Where the policy lists no directories, one answer stands for all of them: nothing configured and
      an unknown word hold everything back, `auto` in any case approves everything, and an empty list
      uploads nothing. */
  lemma OneAnswerForAll(canonicalize: Path -> Option<Path>, root: Path, discovered: seq<Path>,
                        policy: Option<Profile.ExtraRoots>)
    requires policy.Some? && policy.value.Allow? ==> policy.value.paths == []
    ensures var r := Evaluate(canonicalize, root, discovered, policy);
      if discovered == [] || (policy.Some? && policy.value.Allow?) then r == Approved([])
      else if policy.Some? && Fold(policy.value.mode) == Ascii("auto") then r == Approved(discovered)
      else r.Blocked? && r.pending == discovered
  {
    hide Fold, Snippet, Ascii;
    NoneCovered(discovered);
  }

  lemma {:induction false} NoneCovered(discovered: seq<Path>)
    ensures Filter(d => !CoveredBy(d, []), discovered) == discovered
  {
    if discovered != [] { NoneCovered(discovered[1..]); }
  }

  // ---- the round trip ----

  /** The components below the shared directories hold no backslash. */
  predicate Clean(rest: Path) {
    forall c :: c in rest && c.Normal? ==> BACKSLASH !in c.name
  }

  lemma SlashedClean(s: Str)
    ensures BACKSLASH !in Slashed(s)
    ensures BACKSLASH !in s ==> Slashed(s) == s
  {
  }

  lemma {:induction false} JoinUps(n: nat, rest: seq<Str>)
    requires rest != []
    ensures Join(Ups(n) + [Join(rest, [SLASH])], [SLASH]) == Join(Ups(n) + rest, [SLASH])
  {
    var a, b := Ups(n) + [Join(rest, [SLASH])], Ups(n) + rest;
    if n == 0 {
      assert a == [Join(rest, [SLASH])] && b == rest;
    } else {
      assert a[0] == DOTS && b[0] == DOTS;
      assert a[1..] == Ups(n - 1) + [Join(rest, [SLASH])] && b[1..] == Ups(n - 1) + rest;
      JoinUps(n - 1, rest);
    }
  }

  lemma JoinNothing(sep: Str)
    ensures Join([], sep) == []
  {
  }

  lemma RestText(rest: Path)
    requires Clean(rest) && forall c :: c in rest ==> c.Normal? && NameOk(c.name)
    ensures Slashed(Join(Texts(rest), [SLASH])) == Join(Texts(rest), [SLASH])
    ensures rest != [] ==> Join(Texts(rest), [SLASH]) != []
  {
    var texts := Texts(rest);
    assert forall k :: 0 <= k < |rest| ==> rest[k] in rest && texts[k] == rest[k].name;
    JoinWithout(texts, [SLASH], BACKSLASH);
    SlashedClean(Join(texts, [SLASH]));
    if rest != [] {
      JoinStartsWithFirst(texts, [SLASH]);
    }
  }

  lemma DisplayOfRest(ups: nat, rest: Path)
    requires Clean(rest) && forall c :: c in rest ==> c.Normal? && NameOk(c.name)
    ensures var parts := Ups(ups) + Texts(rest);
      DisplayFrom(ups, rest) == if parts == [] then DOT else Join(parts, [SLASH])
  {
    RestText(rest);
    hide Clean, NameOk, Slashed, Join;
    if rest == [] {
      JoinNothing([SLASH]);
      assert Texts(rest) == [];
      assert Ups(ups) + Texts(rest) == Ups(ups);
    } else {
      JoinUps(ups, Texts(rest));
    }
  }

  lemma RelativeTexts(root: Path, target: Path)
    ensures Texts(RelativeComponents(root, target)) ==
      Ups(|root| - Shared(root, target)) + Texts(target[Shared(root, target)..])
  {
  }

  /** Without backslashes the snippet speaks of a directory as the container layout does. */
  lemma DisplayIsRelativePath(root: Path, target: Path)
    requires Canonical(root) && Canonical(target) && Clean(target[Shared(root, target)..])
    ensures Display(root, target) == RelativePath(root, target)
  {
    hide *;
    var n := Shared(root, target);
    SharesRoot(root, target);
    NamesOnly(target, n);
    DisplayIsFrom(root, target);
    DisplayOfRest(|root| - n, target[n..]);
    RelativeTexts(root, target);
    RelativeIsJoin(root, target);
  }

  lemma DisplayIsFrom(root: Path, target: Path)
    requires Canonical(root) && Canonical(target)
    ensures Display(root, target) == DisplayFrom(|root| - Shared(root, target), target[Shared(root, target)..])
  {
    hide DisplayFrom;
    assert Shared(root, target) > 0;
  }

  lemma RelativeIsJoin(root: Path, target: Path)
    ensures var parts := Texts(RelativeComponents(root, target));
      RelativePath(root, target) == if parts == [] then DOT else Join(parts, [SLASH])
  {
    hide Join, RelativeComponents;
    assert |Texts(RelativeComponents(root, target))| == |RelativeComponents(root, target)|;
  }

  lemma NamesOnly(p: Path, n: nat)
    requires Canonical(p) && 0 < n <= |p|
    ensures forall c :: c in p[n..] ==> c.Normal? && NameOk(c.name)
  {
    forall c | c in p[n..] ensures c.Normal? && NameOk(c.name) {
      var k :| 0 <= k < |p[n..]| && p[n..][k] == c;
      assert p[n + k] == c && c in p;
    }
  }

  /** Resolving a canonical path that was reached up and down. */
  lemma LexicalOfRelative(root: Path, target: Path)
    requires Canonical(root) && Canonical(target)
    ensures LexicalFrom([], root + RelativeComponents(root, target)) == target
  {
    hide *;
    var n := Shared(root, target);
    SharesRoot(root, target);
    var ups, rest := |root| - n, target[n..];
    LexicalOfRoot(root, RelativeComponents(root, target));
    NamesOnly(target, n);
    UpAndDown(root, target);
    LexicalOfClimb(root, ups, rest);
    LexicalOfRest(root[..n], rest);
  }

  lemma SharesRoot(root: Path, target: Path)
    requires Canonical(root) && Canonical(target)
    ensures Shared(root, target) > 0 && root != [] && root[0] == RootDir
  {
  }

  lemma UpAndDown(root: Path, target: Path)
    ensures var n := Shared(root, target);
      && RelativeComponents(root, target) == seq(|root| - n, _ => ParentDir) + target[n..]
      && root[..|root| - (|root| - n)] == root[..n] && target == root[..n] + target[n..]
  {
  }

  lemma LexicalOfRest(out: Path, names: Path)
    requires forall c :: c in names ==> c.Normal?
    ensures LexicalFrom(out, names) == out + names
  {
    LexicalOfNames(out, names, []);
    assert names + [] == names;
    LexicalOfNothing(out + names);
  }

  lemma LexicalOfNothing(out: Path)
    ensures LexicalFrom(out, []) == out
  {
  }

  lemma LexicalOfRoot(root: Path, down: Path)
    requires Canonical(root)
    ensures LexicalFrom([], root + down) == LexicalFrom(root, down)
  {
    NamesOnly(root, 1);
    assert root == [RootDir] + root[1..];
    assert (root + down)[0] == RootDir && (root + down)[1..] == root[1..] + down;
    LexicalOfNames([RootDir], root[1..], down);
  }

  lemma JoinedOfRelative(root: Path, target: Path)
    requires Canonical(root) && Canonical(target)
    ensures Joined(root, RelativePath(root, target)) == root + RelativeComponents(root, target)
  {
    var parts := RelativeComponents(root, target);
    var n := Shared(root, target);
    assert n > 0;
    NamesOnly(target, n);
    if parts == [] {
      ParseDot();
    } else {
      RelativeParts(root, target);
      ParseOfJoin(parts);
      assert parts[0] in parts;
    }
  }

  lemma RelativeParts(root: Path, target: Path)
    requires Canonical(root) && Canonical(target)
    ensures PathOk(RelativeComponents(root, target))
    ensures forall c :: c in RelativeComponents(root, target) ==> c.Normal? || c == ParentDir
  {
    var n := Shared(root, target);
    assert n > 0;
    NamesOnly(target, n);
    assert forall c :: c in RelativeComponents(root, target) ==> c == ParentDir || c in target[n..];
  }

  lemma DisplayResolves(root: Path, target: Path)
    requires Canonical(root) && Canonical(target) && Clean(target[Shared(root, target)..])
    ensures LexicalFrom([], Joined(root, Display(root, target))) == target
  {
    hide *;
    DisplayIsRelativePath(root, target);
    LexicalOfRelative(root, target);
    JoinedOfRelative(root, target);
  }

  lemma ParseDot()
    ensures Parse(DOT) == [CurDir]
  {
    SplitOfPrefix(DOT, [], SLASH);
    assert [DOT][1..] == [];
    assert ParsePieces([DOT]) == ParsePieces([DOT][1..]) == [];
    assert Split(DOT, SLASH) == [DOT];
  }

  // The other direction: a backslash does not survive.

  lemma {:induction false} SplitBytes(text: Str, bad: byte)
    requires bad !in text
    ensures forall piece :: piece in Split(text, SLASH) ==> bad !in piece
  {
    if text != [] {
      SplitBytes(text[1..], bad);
    }
  }

  lemma {:induction false} ParsePiecesBytes(pieces: seq<Str>, bad: byte)
    requires forall piece :: piece in pieces ==> bad !in piece
    ensures forall c :: c in ParsePieces(pieces) && c.Normal? ==> bad !in c.name
  {
    if pieces != [] {
      assert pieces[0] in pieces;
      ParsePiecesBytes(pieces[1..], bad);
    }
  }

  lemma ParseBytes(text: Str, bad: byte)
    requires bad !in text
    ensures forall c :: c in Parse(text) && c.Normal? ==> bad !in c.name
  {
    SplitBytes(text, bad);
    ParsePiecesBytes(Split(text, SLASH), bad);
  }

  predicate CleanName(c: Component) {
    c.Normal? ==> BACKSLASH !in c.name
  }

  /** What is not clean was there from the start, at the end of an untouched beginning. */
  ghost predicate Trail(base: Path, out: Path) {
    forall k :: 0 <= k < |out| ==> (k < |base| && out[..k + 1] == base[..k + 1]) || CleanName(out[k])
  }

  lemma TrailStep(base: Path, out: Path, c: Component)
    requires Trail(base, out) && CleanName(c)
    ensures Trail(base, Resolve(out, c))
  {
    var next := Resolve(out, c);
    forall k | 0 <= k < |next| ensures (k < |base| && next[..k + 1] == base[..k + 1]) || CleanName(next[k]) {
      if k < |out| && next[k] == out[k] {
        assert next[..k + 1] == out[..k + 1];
      }
    }
  }

  lemma {:induction false} LexicalTrail(base: Path, out: Path, p: Path)
    requires Trail(base, out) && Clean(p)
    ensures Trail(base, LexicalFrom(out, p))
    decreases |p|
  {
    if p != [] {
      assert p[0] in p;
      TrailStep(base, out, p[0]);
      LexicalTrail(base, Resolve(out, p[0]), p[1..]);
    }
  }

  lemma DisplayIsClean(root: Path, target: Path)
    requires Canonical(root) && Canonical(target)
    ensures BACKSLASH !in Display(root, target)
  {
    var n := Shared(root, target);
    assert n > 0;
    var text := Slashed(Join(Texts(target[n..]), [SLASH]));
    SlashedClean(Join(Texts(target[n..]), [SLASH]));
    var parts := if text == [] then Ups(|root| - n) else Ups(|root| - n) + [text];
    assert forall p :: p in parts ==> p == DOTS || p == text;
    JoinWithout(parts, [SLASH], BACKSLASH);
  }

  lemma JoinedIsClean(root: Path, target: Path)
    requires Canonical(root) && Canonical(target)
    ensures var p := Parse(Display(root, target)); Clean(p) && (p != [] ==> Clean(p[1..]))
  {
    DisplayIsClean(root, target);
    ParseBytes(Display(root, target), BACKSLASH);
    var p := Parse(Display(root, target));
    assert p != [] ==> forall c :: c in p[1..] ==> c in p;
  }

  lemma PartedPrefixes(root: Path, target: Path, base: Path, i: nat)
    requires base <= root && Shared(root, target) <= i < |base| && i < |target|
    ensures target[..i + 1] != base[..i + 1]
  {
    var n := Shared(root, target);
    assert target[..i + 1][n] != base[..i + 1][n];
  }

  /** A resolved path cannot end in an unclean name that `root` does not have there. */
  lemma TrailMissesTarget(root: Path, target: Path, base: Path, resolved: Path)
    requires Trail(base, resolved) && base <= root
    requires !Clean(target[Shared(root, target)..])
    ensures resolved != target
  {
    var n := Shared(root, target);
    var c :| c in target[n..] && !CleanName(c);
    var k :| 0 <= k < |target[n..]| && target[n..][k] == c;
    assert target[n + k] == c;
    if n + k < |base| {
      PartedPrefixes(root, target, base, n + k);
    }
  }

  /** An entry offered for a directory leads back to it exactly when nothing below the shared
      directories has a backslash in its name: the text turns those into separators. */
  lemma DisplayRoundTrip(root: Path, target: Path)
    requires Canonical(root) && Canonical(target)
    ensures LexicalFrom([], Joined(root, Display(root, target))) == target <==> Clean(target[Shared(root, target)..])
  {
    if Clean(target[Shared(root, target)..]) {
      DisplayResolves(root, target);
    } else {
      UncleanIsLost(root, target);
    }
  }

  lemma UncleanIsLost(root: Path, target: Path)
    requires Canonical(root) && Canonical(target) && !Clean(target[Shared(root, target)..])
    ensures LexicalFrom([], Joined(root, Display(root, target))) != target
  {
    var p := Parse(Display(root, target));
    JoinedIsClean(root, target);
    var joined := Joined(root, Display(root, target));
    if p != [] && p[0] == RootDir {
      LexicalTrail([], [], p);
      TrailMissesTarget(root, target, [], LexicalFrom([], joined));
    } else {
      var rest := if p != [] && p[0] == CurDir then p[1..] else p;
      assert joined == root + rest;
      LexicalSplits([], root, rest);
      LexicalOfCanonical(root);
      assert Trail(root, root);
      LexicalTrail(root, root, rest);
      TrailMissesTarget(root, target, root, LexicalFrom([], joined));
    }
  }

  lemma {:induction false} LexicalSplits(out: Path, a: Path, b: Path)
    ensures LexicalFrom(out, a + b) == LexicalFrom(LexicalFrom(out, a), b)
    decreases |a|
  {
    if a == [] {
      assert a + b == b;
    } else {
      assert (a + b)[1..] == a[1..] + b;
      LexicalSplits(Resolve(out, a[0]), a[1..], b);
    }
  }

  lemma LexicalOfCanonical(p: Path)
    requires Canonical(p)
    ensures LexicalFrom([], p) == p
  {
    assert p == [RootDir] + p[1..];
    NamesOnly(p, 1);
    assert p[1..] + [] == p[1..];
    LexicalOfNames([RootDir], p[1..], []);
  }

  /** No symbolic link stands between an entry and what it names, and the directory exists. */
  predicate Plain(canonicalize: Path -> Option<Path>, joined: Path) {
    canonicalize(joined) == Some(LexicalFrom([], joined))
  }

  /** The directories one snippet offers. */
  ghost predicate Offered(canonicalize: Path -> Option<Path>, root: Path, discovered: seq<Path>) {
    forall d :: d in discovered ==>
      Canonical(d) && Clean(d[Shared(root, d)..]) && Plain(canonicalize, Joined(root, Display(root, d)))
  }

  lemma SnippetResolves(canonicalize: Path -> Option<Path>, root: Path, discovered: seq<Path>)
    requires Canonical(root) && Offered(canonicalize, root, discovered)
    ensures Allowed(canonicalize, root, Snippet(root, discovered)) == discovered
  {
    var allowed := Allowed(canonicalize, root, Snippet(root, discovered));
    forall k | 0 <= k < |discovered| ensures allowed[k] == discovered[k] {
      DisplayRoundTrip(root, discovered[k]);
    }
  }

  /** An unconfigured repository is asked about every directory, and pasting the entries it is
      offered approves exactly those and what lies inside them. */
  lemma PastingTheSnippetApproves(canonicalize: Path -> Option<Path>, root: Path, discovered: seq<Path>,
                                  later: seq<Path>)
    requires Canonical(root) && Offered(canonicalize, root, discovered) && discovered != [] && later != []
    ensures Evaluate(canonicalize, root, discovered, None) == Blocked(discovered, Snippet(root, discovered))
    ensures Evaluate(canonicalize, root, discovered, Some(Profile.Allow(Snippet(root, discovered)))) ==
      Approved(discovered)
    ensures Evaluate(canonicalize, root, later, Some(Profile.Allow(Snippet(root, discovered)))) == Approved(later) <==>
      forall d :: d in later ==> CoveredBy(d, discovered)
  {
    var policy := Profile.Allow(Snippet(root, discovered));
    SnippetResolves(canonicalize, root, discovered);
    NothingUnapprovedPasses(canonicalize, root, discovered, Some(policy));
    NothingUnapprovedPasses(canonicalize, root, later, Some(policy));
    forall d | d in discovered ensures CoveredBy(d, discovered) {
      assert d in discovered && StartsWith(d, d);
    }
  }

  // ---- the outermost outside directories ----

  /** `external_to`. */
  function ExternalTo(root: Path, discovered: seq<Path>): seq<Path> {
    var outside := Filter(p => !StartsWith(p, root), discovered);
    Filter(p => !exists o :: o in outside && o != p && StartsWith(p, o), outside)
  }

  /** An outermost directory above `p`, the shortest one. */
  lemma {:induction false} OutermostAbove(outside: seq<Path>, p: Path)
    requires p in outside
    ensures exists o :: o in outside && StartsWith(p, o) && !exists q :: q in outside && q != o && StartsWith(o, q)
    decreases |p|
  {
    if q :| q in outside && q != p && StartsWith(p, q) {
      assert |q| < |p|;
      OutermostAbove(outside, q);
      var o :| o in outside && StartsWith(q, o) && !exists r :: r in outside && r != o && StartsWith(o, r);
      assert StartsWith(p, o);
    } else {
      assert StartsWith(p, p);
    }
  }

  /** The directories asked about lie outside the repository, cover every outside directory, and
      none lies in another. */
  lemma ExternalCovers(root: Path, discovered: seq<Path>)
    ensures var asked := ExternalTo(root, discovered);
      && (forall p :: p in asked ==> p in discovered && !StartsWith(p, root))
      && (forall p :: p in discovered && !StartsWith(p, root) ==> CoveredBy(p, asked))
      && (forall p, q :: p in asked && q in asked && StartsWith(p, q) ==> p == q)
  {
    var outside := Filter(p => !StartsWith(p, root), discovered);
    forall p ensures p in outside <==> p in discovered && !StartsWith(p, root) {
      FilterMembers(p => !StartsWith(p, root), discovered, p);
    }
    var outermost := p => !exists o :: o in outside && o != p && StartsWith(p, o);
    forall p ensures p in ExternalTo(root, discovered) <==> p in outside && outermost(p) {
      FilterMembers(p => !exists o :: o in outside && o != p && StartsWith(p, o), outside, p);
    }
    forall p | p in discovered && !StartsWith(p, root) ensures CoveredBy(p, ExternalTo(root, discovered)) {
      OutermostAbove(outside, p);
    }
  }

  lemma {:induction false} FilterKeepsDistinct<T>(p: T -> bool, s: seq<T>)
    requires forall i, j :: 0 <= i < j < |s| ==> s[i] != s[j]
    ensures forall i, j :: 0 <= i < j < |Filter(p, s)| ==> Filter(p, s)[i] != Filter(p, s)[j]
  {
    if s != [] {
      FilterKeepsDistinct(p, s[1..]);
      FilterMembers(p, s[1..], s[0]);
    }
  }

  /** From a list without repetitions, every two directories asked about are incomparable. */
  lemma ExternalIsIncomparable(root: Path, discovered: seq<Path>)
    requires forall i, j :: 0 <= i < j < |discovered| ==> discovered[i] != discovered[j]
    ensures var asked := ExternalTo(root, discovered);
      forall i, j :: 0 <= i < |asked| && 0 <= j < |asked| && i != j ==> !StartsWith(asked[i], asked[j])
  {
    var outside := Filter(p => !StartsWith(p, root), discovered);
    FilterKeepsDistinct(p => !StartsWith(p, root), discovered);
    FilterKeepsDistinct(p => !exists o :: o in outside && o != p && StartsWith(p, o), outside);
    ExternalCovers(root, discovered);
    var asked := ExternalTo(root, discovered);
    forall i, j | 0 <= i < |asked| && 0 <= j < |asked| && i != j ensures !StartsWith(asked[i], asked[j]) {
      assert asked[i] in asked && asked[j] in asked;
    }
  }
}
