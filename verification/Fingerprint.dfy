/** Task fingerprints (crates/rc-core/src/fingerprint.rs), on top of the manifest root hash. */
module Fingerprint {
  import opened Text
  import opened Sorting
  import opened Manifest
  import opened EntryOrder

  const EXECUTOR_ABI: Str := Ascii("abi3")
  const AT: byte := 64
  const SHA256_PREFIX: Str := Ascii("sha256:")
  const DIGEST_LENGTH: nat := 71
  const HEX_LENGTH: nat := 64

  /** One more than the largest `u64`. */
  const U64: nat := 0x1_0000_0000_0000_0000

  datatype FingerprintError = ImageNotDigest(image: Str) | MissingManifest

  /** The hash is a parameter; all that is known of it is that it prints 64 hex digits. Nothing
      says it is injective, which no such function is. */
  ghost predicate PrintsHex(hash: Str -> Str) {
    forall x :: |hash(x)| == HEX_LENGTH
  }

  // ---- framing ----

  /** `to_le_bytes`, least significant byte first. */
  function LittleEndian(n: nat, width: nat): (r: Str)
    ensures |r| == width
  {
    if width == 0 then [] else [(n % 256) as byte] + LittleEndian(n / 256, width - 1)
  }

  function FromLittleEndian(s: Str): nat {
    if s == [] then 0 else s[0] as nat + 256 * FromLittleEndian(s[1..])
  }

  function Power(width: nat): nat {
    if width == 0 then 1 else 256 * Power(width - 1)
  }

  lemma {:induction false} LittleEndianRoundTrip(n: nat, width: nat)
    requires n < Power(width)
    ensures FromLittleEndian(LittleEndian(n, width)) == n
  {
    if width > 0 {
      LittleEndianRoundTrip(n / 256, width - 1);
    }
  }

  /** One field as the hasher is fed it: its length as a `u64`, then its bytes. */
  function Frame(part: Str): Str {
    LittleEndian(|part| % U64, 8) + part
  }

  function Framed(parts: seq<Str>): Str {
    if parts == [] then [] else Frame(parts[0]) + Framed(parts[1..])
  }

  /** Lengths a 64-bit program can hold. */
  predicate Fits(s: Str) {
    |s| < U64
  }

  predicate AllFit(parts: seq<Str>) {
    forall p :: p in parts ==> Fits(p)
  }

  lemma LengthsDecode(m: nat, n: nat)
    requires m < U64 && n < U64 && LittleEndian(m, 8) == LittleEndian(n, 8)
    ensures m == n
  {
    hide LittleEndian, FromLittleEndian;
    assert Power(8) == U64 by {
      assert Power(4) == 256 * 256 * 256 * 256;
      assert Power(8) == 256 * 256 * 256 * 256 * Power(4);
    }
    LittleEndianRoundTrip(m, 8);
    LittleEndianRoundTrip(n, 8);
  }

  lemma FrameSlices(a: Str, x: Str)
    requires Fits(a)
    ensures var s := Frame(a) + x;
      |s| >= 8 + |a| && s[..8] == LittleEndian(|a|, 8) && s[8..8 + |a|] == a && s[8 + |a|..] == x
  {
    hide LittleEndian;
  }

  lemma FrameDecodes(a: Str, b: Str, x: Str, y: Str)
    requires Fits(a) && Fits(b)
    requires Frame(a) + x == Frame(b) + y
    ensures a == b && x == y
  {
    hide Frame, LittleEndian;
    FrameSlices(a, x);
    FrameSlices(b, y);
    LengthsDecode(|a|, |b|);
  }

  /** No concatenation of fields can mimic another: the framed bytes spell one list of fields. */
  lemma {:induction false} FramedInjective(a: seq<Str>, b: seq<Str>)
    requires AllFit(a) && AllFit(b)
    requires Framed(a) == Framed(b)
    ensures a == b
  {
    if a != [] && b != [] {
      FrameDecodes(a[0], b[0], Framed(a[1..]), Framed(b[1..]));
      FramedInjective(a[1..], b[1..]);
      assert a == [a[0]] + a[1..] && b == [b[0]] + b[1..];
    }
  }

  // ---- the fingerprint ----

  /** Everything behind the first `@`, if there is one. */
  function AfterAt(image: Str): Option<Str> {
    if image == [] then None
    else if image[0] == AT then Some(image[1..])
    else AfterAt(image[1..])
  }

  predicate IsDigestRef(image: Str) {
    match AfterAt(image)
    case Some(digest) => SHA256_PREFIX <= digest && |digest| == DIGEST_LENGTH
    case None => false
  }

  /** A reference counts as pinned exactly when what follows its first `@` is a sha256 digest of
      the full length. */
  lemma {:induction false} DigestRefs(name: Str, digest: Str)
    requires AT !in name
    ensures IsDigestRef(name + [AT] + digest) <==> SHA256_PREFIX <= digest && |digest| == DIGEST_LENGTH
    ensures !IsDigestRef(name)
  {
    var image := name + [AT] + digest;
    if name == [] {
      assert image[1..] == digest;
    } else {
      DigestRefs(name[1..], digest);
      assert image[1..] == name[1..] + [AT] + digest;
    }
  }

  function BaseParts(hash: Str -> Str, manifestHash: Str, image: Str, toolchain: Str, canonical: Str,
                     anchorMount: Str): seq<Str> {
    [EXECUTOR_ABI, anchorMount, manifestHash, image, toolchain, hash(canonical)]
  }

  method FeedAll(parts: seq<Str>) returns (fed: Str)
    ensures fed == Framed(parts)
  {
    hide Framed, LittleEndian;
    fed := [];
    assert parts[0..] == parts;
    for i := 0 to |parts|
      invariant fed + Framed(parts[i..]) == Framed(parts)
    {
      FramedFrom(parts, i);
      ghost var was, rest := fed, Framed(parts[i + 1..]);
      fed := fed + LittleEndian(|parts[i]| % U64, 8);
      fed := fed + parts[i];
      assert fed + rest == was + (Frame(parts[i]) + rest);
    }
    FramedEnds(parts);
  }

  lemma FramedFrom(parts: seq<Str>, i: nat)
    requires i < |parts|
    ensures Framed(parts[i..]) == Frame(parts[i]) + Framed(parts[i + 1..])
  {
    hide Frame;
    assert parts[i..][1..] == parts[i + 1..];
  }

  lemma FramedEnds(parts: seq<Str>)
    ensures Framed(parts[|parts|..]) == []
  {
  }

  method Compute(hash: Str -> Str, manifestHash: Str, image: Str, toolchain: Str, canonical: Str, anchorMount: Str)
    returns (r: Result<Str, FingerprintError>)
    ensures r == if manifestHash == [] then Err(MissingManifest)
                 else if !IsDigestRef(image) then Err(ImageNotDigest(image))
                 else Ok(hash(Framed(BaseParts(hash, manifestHash, image, toolchain, canonical, anchorMount))))
    ensures r.Ok? ==>
      r.value == hash(Framed([Ascii("abi3"), anchorMount, manifestHash, image, toolchain, hash(canonical)]))
  {
    if manifestHash == [] {
      return Err(MissingManifest);
    }
    if !IsDigestRef(image) {
      return Err(ImageNotDigest(image));
    }
    var profileHash := hash(canonical);
    var fed := FeedAll([EXECUTOR_ABI, anchorMount, manifestHash, image, toolchain, profileHash]);
    return Ok(hash(fed));
  }

  function GrantParts(fingerprint: Str, granted: seq<Str>): seq<Str> {
    [fingerprint] + SortDedup(granted)
  }

  lemma GrantAscends(granted: seq<Str>)
    ensures Ascending(SortDedup(granted)) && forall h :: h in SortDedup(granted) <==> h in granted
  {
    LeqIsTotalPreorder();
    SortSorts(Leq, granted);
    SameElements(granted, Sort(Leq, granted));
    DedupStrict(Sort(Leq, granted));
  }

  method WithEgress(hash: Str -> Str, fingerprint: Str, granted: seq<Str>) returns (r: Str)
    ensures r == if granted == [] then fingerprint else hash(Framed(GrantParts(fingerprint, granted)))
    ensures granted != [] ==> exists hosts ::
      Ascending(hosts) && (forall h :: h in hosts <==> h in granted) && r == hash(Framed([fingerprint] + hosts))
  {
    GrantAscends(granted);
    if granted == [] {
      return fingerprint;
    }
    var hosts := SortDedup(granted);
    var fed := FeedAll([fingerprint] + hosts);
    return hash(fed);
  }

  // ---- the whole key ----

  /** What decides whether an earlier result may be served. */
  datatype Build = Build(
    entries: seq<FileEntry>,
    image: Str,
    toolchain: Str,
    canonical: Str,
    anchorMount: Str,
    granted: seq<Str>)

  function BasePreimage(hash: Str -> Str, b: Build): Str {
    Framed(BaseParts(hash, hash(RootPreimage(b.entries)), b.image, b.toolchain, b.canonical, b.anchorMount))
  }

  /** The bytes hashed last. */
  function LastPreimage(hash: Str -> Str, b: Build): Str {
    if b.granted == [] then BasePreimage(hash, b)
    else Framed(GrantParts(hash(BasePreimage(hash, b)), b.granted))
  }

  /** The key of a build: manifest, fingerprint and granted egress, in that order. */
  method KeyOfBuild(hash: Str -> Str, b: Build) returns (r: Result<Str, FingerprintError>)
    requires PrintsHex(hash)
    ensures r == if IsDigestRef(b.image) then Ok(hash(LastPreimage(hash, b))) else Err(ImageNotDigest(b.image))
  {
    var manifestHash := RootHash(hash, b.entries);
    assert |manifestHash| == HEX_LENGTH;
    r := Compute(hash, manifestHash, b.image, b.toolchain, b.canonical, b.anchorMount);
    if r.Ok? {
      var key := WithEgress(hash, r.value, b.granted);
      r := Ok(key);
    }
  }

  /** Two builds no result may be exchanged between unless this holds. */
  ghost predicate SameBuild(a: Build, b: Build) {
    && a.anchorMount == b.anchorMount
    && a.image == b.image
    && a.toolchain == b.toolchain
    && a.canonical == b.canonical
    && (forall host :: host in a.granted <==> host in b.granted)
    && Keys(Sort(ByPath, a.entries)) == Keys(Sort(ByPath, b.entries))
  }

  predicate Collides(hash: Str -> Str, x: Str, y: Str) {
    x != y && hash(x) == hash(y)
  }

  /** One of the four pairs of inputs these two builds hash is a collision. */
  predicate CollisionBetween(hash: Str -> Str, a: Build, b: Build) {
    || Collides(hash, LastPreimage(hash, a), LastPreimage(hash, b))
    || Collides(hash, BasePreimage(hash, a), BasePreimage(hash, b))
    || Collides(hash, RootPreimage(a.entries), RootPreimage(b.entries))
    || Collides(hash, a.canonical, b.canonical)
  }

  /** Strings of the sizes a program can hold, and paths and hashes without NUL bytes. */
  ghost predicate WellFormed(b: Build) {
    && Fits(b.anchorMount) && Fits(b.image) && Fits(b.toolchain) && AllFit(b.granted)
    && NulFree(b.entries)
  }

  lemma BaseDecodes(hash: Str -> Str, a: Build, b: Build)
    requires PrintsHex(hash) && WellFormed(a) && WellFormed(b)
    requires BasePreimage(hash, a) == BasePreimage(hash, b)
    ensures a.anchorMount == b.anchorMount && a.image == b.image && a.toolchain == b.toolchain
    ensures hash(a.canonical) == hash(b.canonical)
    ensures hash(RootPreimage(a.entries)) == hash(RootPreimage(b.entries))
  {
    hide RootPreimage;
    var x := BaseParts(hash, hash(RootPreimage(a.entries)), a.image, a.toolchain, a.canonical, a.anchorMount);
    var y := BaseParts(hash, hash(RootPreimage(b.entries)), b.image, b.toolchain, b.canonical, b.anchorMount);
    assert AllFit(x) && AllFit(y);
    FramedInjective(x, y);
    assert x[1] == y[1] && x[2] == y[2] && x[3] == y[3] && x[4] == y[4] && x[5] == y[5];
  }

  lemma GrantedFit(granted: seq<Str>)
    requires AllFit(granted)
    ensures AllFit(SortDedup(granted))
    ensures granted != [] ==> SortDedup(granted) != []
  {
    SameElements(granted, Sort(Leq, granted));
  }

  /** The fields hashed last. */
  function LastParts(hash: Str -> Str, b: Build): seq<Str> {
    if b.granted == [] then
      BaseParts(hash, hash(RootPreimage(b.entries)), b.image, b.toolchain, b.canonical, b.anchorMount)
    else
      GrantParts(hash(BasePreimage(hash, b)), b.granted)
  }

  /** Their first field tells whether there is a grant: a fingerprint is longer than the version. */
  lemma LastPartsAre(hash: Str -> Str, b: Build)
    requires PrintsHex(hash) && WellFormed(b)
    ensures LastPreimage(hash, b) == Framed(LastParts(hash, b)) && AllFit(LastParts(hash, b))
    ensures LastParts(hash, b) != []
    ensures |LastParts(hash, b)[0]| == if b.granted == [] then |EXECUTOR_ABI| else HEX_LENGTH
  {
    hide RootPreimage, Framed, SortDedup;
    GrantedFit(b.granted);
  }

  lemma GrantDecodes(fingerprint: Str, other: Str, a: seq<Str>, b: seq<Str>)
    requires GrantParts(fingerprint, a) == GrantParts(other, b)
    ensures fingerprint == other && forall host :: host in a <==> host in b
  {
    hide SortDedup;
    var x, y := GrantParts(fingerprint, a), GrantParts(other, b);
    assert x[0] == y[0] && x[1..] == SortDedup(a) && y[1..] == SortDedup(b);
    SortDedupCanonical(a, b);
  }

  /** What the last hash says about the grant. */
  lemma LastDecodes(hash: Str -> Str, a: Build, b: Build)
    requires PrintsHex(hash) && WellFormed(a) && WellFormed(b)
    requires LastPreimage(hash, a) == LastPreimage(hash, b)
    ensures hash(BasePreimage(hash, a)) == hash(BasePreimage(hash, b))
    ensures forall host :: host in a.granted <==> host in b.granted
  {
    hide PrintsHex, WellFormed, RootPreimage, Framed, AllFit, SortDedup, GrantParts, LastPreimage;
    LastPartsAre(hash, a);
    LastPartsAre(hash, b);
    FramedInjective(LastParts(hash, a), LastParts(hash, b));
    assert |EXECUTOR_ABI| == 4;
    if a.granted != [] && b.granted != [] {
      GrantDecodes(hash(BasePreimage(hash, a)), hash(BasePreimage(hash, b)), a.granted, b.granted);
    } else {
      LastIsBase(hash, a);
      LastIsBase(hash, b);
    }
  }

  lemma LastIsBase(hash: Str -> Str, b: Build)
    ensures b.granted == [] ==> BasePreimage(hash, b) == LastPreimage(hash, b)
  {
  }

  /** Equal keys come from the same build, or the two builds exhibit a hash collision. */
  lemma EqualKeysMeanSameBuild(hash: Str -> Str, a: Build, b: Build)
    requires PrintsHex(hash) && WellFormed(a) && WellFormed(b)
    requires hash(LastPreimage(hash, a)) == hash(LastPreimage(hash, b))
    ensures SameBuild(a, b) || CollisionBetween(hash, a, b)
  {
    if !CollisionBetween(hash, a, b) {
      hide BasePreimage, LastPreimage, RootPreimage;
      LastDecodes(hash, a, b);
      BaseDecodes(hash, a, b);
      PreimageDecodes(a.entries, b.entries);
    }
  }

  /** And the same build always has one key: nothing else takes part. */
  lemma SameBuildHasOneKey(hash: Str -> Str, a: Build, b: Build)
    requires SameBuild(a, b)
    ensures LastPreimage(hash, a) == LastPreimage(hash, b)
  {
    SerializedFromKeys(Sort(ByPath, a.entries), Sort(ByPath, b.entries));
    SortDedupCanonical(a.granted, b.granted);
    EmptyTogether(a.granted, b.granted);
    EmptyTogether(b.granted, a.granted);
  }

  lemma EmptyTogether(a: seq<Str>, b: seq<Str>)
    requires forall x :: x in a <==> x in b
    ensures a != [] ==> b != []
  {
    if a != [] {
      assert a[0] in b;
    }
  }

  /** In particular the order of the entries, when their paths differ, and the order and the
      repetition of the granted hosts never matter. */
  lemma OrderNeverMatters(hash: Str -> Str, a: Build, b: Build)
    requires DistinctPaths(a.entries) && multiset(a.entries) == multiset(b.entries)
    requires forall host :: host in a.granted <==> host in b.granted
    requires b == a.(entries := b.entries, granted := b.granted)
    ensures LastPreimage(hash, a) == LastPreimage(hash, b)
  {
    PreimageOfPermutation(a.entries, b.entries);
    SameBuildHasOneKey(hash, a, b);
  }

  /** The order of the entries matters to the build exactly when one path comes with two keys:
      the sort keeps equal paths as they came. */
  lemma OrderMattersExactly(a: Build)
    ensures (forall es :: Rearranged(a.entries, es) ==> SameBuild(a.(entries := es), a)) <==> OneKeyPerPath(a.entries)
  {
    hide Sort, Keys, Rearranged, OneKeyPerPath;
    OrderShowsInKeys(a.entries);
    forall es ensures SameBuild(a.(entries := es), a) <==> Keys(Sort(ByPath, es)) == Keys(Sort(ByPath, a.entries)) {
    }
  }
}
