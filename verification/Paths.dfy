/** Paths as component lists, the view `std::path` compares and joins them by. */
module Paths {
  import opened Text

  datatype Component = RootDir | CurDir | ParentDir | Normal(name: Str)

  type Path = seq<Component>

  /** What a parsed `Normal` component can be. */
  predicate NameOk(name: Str) {
    name != [] && SLASH !in name && name != DOT && name != DOTS
  }

  predicate PathOk(p: Path) {
    forall c :: c in p && c.Normal? ==> NameOk(c.name)
  }

  /** An absolute path with nothing left to resolve. */
  predicate Canonical(p: Path) {
    && PathOk(p) && p != [] && p[0] == RootDir
    && forall k :: 0 < k < |p| ==> p[k].Normal?
  }

  /** `Path::starts_with`, by whole components. */
  predicate StartsWith(p: Path, base: Path) {
    base <= p
  }

  function OsStr(c: Component): Str {
    match c
    case RootDir => [SLASH]
    case CurDir => DOT
    case ParentDir => DOTS
    case Normal(name) => name
  }

  function Texts(p: Path): (r: seq<Str>)
    ensures |r| == |p|
    ensures forall k :: 0 <= k < |p| ==> r[k] == OsStr(p[k])
  {
    seq(|p|, k requires 0 <= k < |p| => OsStr(p[k]))
  }

  /** Components of slash-separated pieces after the first: empty and `.` pieces vanish. */
  function ParsePieces(pieces: seq<Str>): Path {
    if pieces == [] then []
    else
      var rest := ParsePieces(pieces[1..]);
      if pieces[0] == [] || pieces[0] == DOT then rest
      else if pieces[0] == DOTS then [ParentDir] + rest
      else [Normal(pieces[0])] + rest
  }

  /** `Path::new(text).components()`. */
  function Parse(text: Str): Path {
    if text == [] then []
    else
      var pieces := Split(text, SLASH);
      if text[0] == SLASH then [RootDir] + ParsePieces(pieces)
      else if pieces[0] == DOT then [CurDir] + ParsePieces(pieces)
      else ParsePieces(pieces)
  }

  lemma {:induction false} ParsePiecesOfNames(names: seq<Str>)
    requires forall n :: n in names ==> NameOk(n) || n == DOTS
    ensures |ParsePieces(names)| == |names|
    ensures forall k :: 0 <= k < |names| ==>
      ParsePieces(names)[k] == (if names[k] == DOTS then ParentDir else Normal(names[k]))
  {
    if names != [] {
      assert names[0] in names;
      assert forall n :: n in names[1..] ==> n in names;
      ParsePiecesOfNames(names[1..]);
    }
  }

  lemma JoinStartsWithFirst(parts: seq<Str>, sep: Str)
    requires parts != [] && parts[0] != []
    ensures Join(parts, sep) != [] && Join(parts, sep)[0] == parts[0][0]
  {
  }

  lemma TextsAreNames(p: Path)
    requires PathOk(p) && forall c :: c in p ==> c.Normal? || c == ParentDir
    ensures forall t :: t in Texts(p) ==> SLASH !in t && t != [] && t != DOT && (NameOk(t) || t == DOTS)
  {
    forall t | t in Texts(p) ensures SLASH !in t && t != [] && t != DOT && (NameOk(t) || t == DOTS) {
      var k :| 0 <= k < |p| && Texts(p)[k] == t;
      assert p[k] in p;
    }
  }

  lemma PiecesOfTexts(p: Path)
    requires PathOk(p) && forall c :: c in p ==> c.Normal? || c == ParentDir
    ensures ParsePieces(Texts(p)) == p
  {
    TextsAreNames(p);
    ParsePiecesOfNames(Texts(p));
    hide ParsePieces;
    forall k | 0 <= k < |p| ensures ParsePieces(Texts(p))[k] == p[k] {
      assert p[k] in p;
    }
  }

  /** Joining the texts of a relative path of names and `..` with slashes and parsing the result
      gives the path back. */
  lemma ParseOfJoin(p: Path)
    requires PathOk(p) && forall c :: c in p ==> c.Normal? || c == ParentDir
    ensures Parse(Join(Texts(p), [SLASH])) == p
  {
    if p != [] {
      var parts := Texts(p);
      TextsAreNames(p);
      PiecesOfTexts(p);
      hide PathOk, NameOk, Join, ParsePieces, Texts, Split;
      SplitJoin(parts, SLASH);
      assert parts[0] in parts;
      JoinStartsWithFirst(parts, [SLASH]);
      assert parts[0][0] in parts[0];
    }
  }

  /** How many leading components two paths share. */
  function Shared(a: Path, b: Path): (n: nat)
    ensures n <= |a| && n <= |b|
    ensures a[..n] == b[..n]
    ensures n < |a| && n < |b| ==> a[n] != b[n]
  {
    if a == [] || b == [] || a[0] != b[0] then 0
    else
      var n := Shared(a[1..], b[1..]);
      assert a[..1 + n] == [a[0]] + a[1..][..n] && b[..1 + n] == [b[0]] + b[1..][..n];
      1 + n
  }

  /** The components of `relative_path`: up to the shared part, then down. */
  function RelativeComponents(from: Path, to: Path): Path {
    var n := Shared(from, to);
    seq(|from| - n, _ => ParentDir) + to[n..]
  }

  /** `relative_path`. */
  function RelativePath(from: Path, to: Path): Str {
    var parts := RelativeComponents(from, to);
    if parts == [] then DOT else Join(Texts(parts), [SLASH])
  }

  lemma {:induction false} SharedUnderPrefix(base: Path, a: Path, b: Path)
    ensures Shared(base + a, base + b) == |base| + Shared(a, b)
  {
    if base == [] {
      assert base + a == a && base + b == b;
    } else {
      assert (base + a)[1..] == base[1..] + a && (base + b)[1..] == base[1..] + b;
      SharedUnderPrefix(base[1..], a, b);
    }
  }

  /** Moving two directories together does not change how one is reached from the other. */
  lemma RelativeUnderPrefix(base: Path, a: Path, b: Path)
    ensures RelativeComponents(base + a, base + b) == RelativeComponents(a, b)
  {
    SharedUnderPrefix(base, a, b);
    var n := Shared(a, b);
    assert (base + b)[|base| + n..] == b[n..];
  }
}
