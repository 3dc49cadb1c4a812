/** The response budget (crates/rc-core/src/budget.rs): truncation and elision of one line. */
module Budget {
  import opened Text
  import opened Utf8

  const RESPONSE_BUDGET: nat := 8192
  const LINE_BUDGET: nat := 400
  const LINE_HEAD: nat := 250
  const LINE_TAIL: nat := 100

  /** No Rust string is longer than `isize::MAX` bytes. */
  const MAX_STR_LEN: nat := 0x7FFF_FFFF_FFFF_FFFF

  const U32: nat := 0x1_0000_0000

  function SatSub(a: nat, b: nat): (r: nat) {
    if a < b then 0 else a - b
  }

  function Truncated(s: Str, max: nat): (r: Str)
    ensures |r| <= max && |r| <= |s| && r == s[..|r|]
    ensures |s| <= max ==> r == s
  {
    s[..Floor(s, max)]
  }

  /** Cutting back to a boundary: the longest whole-character prefix that fits. */
  method TruncateBytes(s: Str, max: nat) returns (r: Str)
    ensures r == Truncated(s, max)
    ensures Valid(s) ==> Valid(r)
    ensures forall j :: |r| < j <= max && j <= |s| ==> !IsBoundary(s, j)
  {
    if |s| <= max {
      return s;
    }
    var end := max;
    while end > 0 && !IsBoundary(s, end)
      invariant 0 <= end <= max
      invariant Floor(s, end) == Floor(s, max)
    {
      end := end - 1;
    }
    if Valid(s) { ValidSplit(s, end); }
    r := s[..end];
  }

  // The fixed parts of the elision marker; its words are Chinese.
  const ELLIPSIS: Str := [0xE2, 0x80, 0xA6]
  const OMITTED_WORD: Str := [0xE7, 0x9C, 0x81, 0xE7, 0x95, 0xA5]
  const ORIGINAL_WORD: Str := [0xE5, 0x8E, 0x9F]
  const MARK_OPEN: Str := ELLIPSIS + [91] + OMITTED_WORD + [32]
  const MARK_LOG: Str := [32, 66, 44, 32, 108, 111, 103, 58]
  const MARK_ORIG: Str := [44, 32] + ORIGINAL_WORD + [32]
  const MARK_CLOSE: Str := [66, 93] + ELLIPSIS

  function Marker(omitted: nat, lineNo: nat, orig: nat): (r: Str)
    ensures |r| == 30 + |Decimal(omitted)| + |Decimal(lineNo)| + |Decimal(orig)|
  {
    MARK_OPEN + Decimal(omitted) + MARK_LOG + Decimal(lineNo) + MARK_ORIG + Decimal(orig) + MARK_CLOSE
  }

  lemma MarkerValid(omitted: nat, lineNo: nat, orig: nat)
    ensures Valid(Marker(omitted, lineNo, orig))
  {
    ValidAscii(Decimal(omitted));
    ValidAscii(Decimal(lineNo));
    ValidAscii(Decimal(orig));
    FixedPartsValid();
    ValidConcat(MARK_OPEN, Decimal(omitted));
    ValidConcat(MARK_OPEN + Decimal(omitted), MARK_LOG);
    ValidConcat(MARK_OPEN + Decimal(omitted) + MARK_LOG, Decimal(lineNo));
    ValidConcat(MARK_OPEN + Decimal(omitted) + MARK_LOG + Decimal(lineNo), MARK_ORIG);
    ValidConcat(MARK_OPEN + Decimal(omitted) + MARK_LOG + Decimal(lineNo) + MARK_ORIG, Decimal(orig));
    ValidConcat(MARK_OPEN + Decimal(omitted) + MARK_LOG + Decimal(lineNo) + MARK_ORIG + Decimal(orig), MARK_CLOSE);
  }

  lemma FixedPartsValid()
    ensures Valid(ELLIPSIS)
    ensures Valid(MARK_OPEN) && Valid(MARK_LOG) && Valid(MARK_ORIG) && Valid(MARK_CLOSE)
  {
    OneChar(ELLIPSIS);
    ValidAscii(MARK_LOG);
    OpenValid();
    OrigValid();
    ValidAscii([66, 93]);
    ValidConcat([66, 93], ELLIPSIS);
  }

  lemma OpenValid()
    ensures Valid(MARK_OPEN)
  {
    var words := OMITTED_WORD + [32];
    OneChar(ELLIPSIS);
    OneChar(OMITTED_WORD[..3]);
    OneChar(OMITTED_WORD[3..]);
    ValidConcat(OMITTED_WORD[..3], OMITTED_WORD[3..]);
    assert OMITTED_WORD[..3] + OMITTED_WORD[3..] == OMITTED_WORD;
    ValidAscii([32]);
    ValidConcat(OMITTED_WORD, [32]);
    ValidAscii([91]);
    ValidConcat(ELLIPSIS, [91]);
    ValidConcat(ELLIPSIS + [91], words);
    assert MARK_OPEN == (ELLIPSIS + [91]) + words;
  }

  lemma OrigValid()
    ensures Valid(MARK_ORIG)
  {
    OneChar(ORIGINAL_WORD);
    ValidAscii([44, 32]);
    ValidAscii([32]);
    ValidConcat([44, 32], ORIGINAL_WORD);
    ValidConcat([44, 32] + ORIGINAL_WORD, [32]);
  }

  lemma OneChar(s: Str)
    requires StartsWithChar(s) && Width(s[0]) == |s|
    ensures Valid(s)
  {
    assert s[Width(s[0])..] == [];
  }

  function Min(a: nat, b: nat): nat { if a < b then a else b }

  function Max(a: nat, b: nat): nat { if a < b then b else a }

  /** Bytes between the head and the tail of the first estimate. */
  function FirstOmitted(line: Str): nat
    requires |line| > LINE_BUDGET
  {
    SatSub(|line|, Floor(line, LINE_HEAD) + (|line| - Ceil(line, |line| - LINE_TAIL)))
  }

  /** Bytes left for content once the first estimate of the marker is paid for. */
  function ContentBudget(line: Str, lineNo: nat): (r: nat)
    requires |line| > LINE_BUDGET
    ensures r <= LINE_BUDGET
  {
    SatSub(LINE_BUDGET, Min(|Marker(FirstOmitted(line), lineNo, |line|)|, LINE_BUDGET))
  }

  /** Where the kept head ends and the kept tail starts, for a line over the budget. */
  function ElisionCuts(line: Str, lineNo: nat): (cuts: (nat, nat))
    requires |line| > LINE_BUDGET
    ensures cuts.0 <= |line| && cuts.1 <= |line|
    ensures IsBoundary(line, cuts.0) && IsBoundary(line, cuts.1)
  {
    var content := ContentBudget(line, lineNo);
    var headN := Max(content * 5 / 7, 1);
    var tailN := SatSub(content, headN);
    (Floor(line, headN), Ceil(line, SatSub(|line|, tailN)))
  }

  /** The head up to `h`, a marker reporting `omitted` bytes, and the tail from `t`. */
  function Spliced(line: Str, lineNo: nat, h: nat, omitted: nat, t: nat): (r: Str)
    requires h <= |line| && t <= |line|
    ensures |r| == h + |Marker(omitted, lineNo, |line|)| + (|line| - t)
  {
    line[..h] + Marker(omitted, lineNo, |line|) + line[t..]
  }

  function Elided(line: Str, lineNo: nat): Str {
    if |line| <= LINE_BUDGET then line
    else
      var (h, t) := ElisionCuts(line, lineNo);
      Spliced(line, lineNo, h, SatSub(|line|, h + (|line| - t)), t)
  }

  /** The forward scan `elide_line` runs twice. */
  method SkipToBoundary(line: Str, from: nat) returns (start: nat)
    requires from <= |line|
    ensures start == Ceil(line, from)
  {
    start := from;
    while start < |line| && !IsBoundary(line, start)
      invariant start <= |line|
      invariant Ceil(line, start) == Ceil(line, from)
    {
      start := start + 1;
    }
  }

  /** The first estimate: what the marker would cost at the default cuts. */
  method EstimateContentBudget(line: Str, lineNo: nat) returns (budget: nat)
    requires |line| > LINE_BUDGET
    ensures budget == ContentBudget(line, lineNo)
  {
    var head := TruncateBytes(line, LINE_HEAD);
    var start := SkipToBoundary(line, SatSub(|line|, LINE_TAIL));
    var tail := line[start..];
    var omitted := SatSub(|line|, |head| + |tail|);
    var marker := Marker(omitted, lineNo, |line|);
    budget := SatSub(LINE_BUDGET, Min(|marker|, LINE_BUDGET));
  }

  method ElideLine(line: Str, lineNo: nat) returns (r: Str)
    requires lineNo < U32
    ensures r == Elided(line, lineNo)
    ensures |line| <= 400 ==> r == line
    ensures 400 < |line| <= MAX_STR_LEN && Valid(line) ==> exists h, t :: MarkedCut(r, line, lineNo, h, t)
  {
    hide MarkedCut, Valid, Marker, IsBoundary, FirstOmitted, ContentBudget, Spliced;
    if |line| <= LINE_BUDGET {
      return line;
    }
    var budgetForContent := EstimateContentBudget(line, lineNo);
    var headN := Max(budgetForContent * 5 / 7, 1);
    var tailN := SatSub(budgetForContent, headN);
    var head := TruncateBytes(line, headN);
    var start := SkipToBoundary(line, SatSub(|line|, tailN));
    var tail := line[start..];
    var omitted := SatSub(|line|, |head| + |tail|);
    r := Spliced(line, lineNo, |head|, omitted, start);
    assert r == Elided(line, lineNo);
    hide *;
    if |line| <= MAX_STR_LEN && Valid(line) {
      ElidedCutSomewhere(line, lineNo);
    }
  }

  function Pow10(k: nat): nat {
    if k == 0 then 1 else 10 * Pow10(k - 1)
  }

  lemma {:induction false} DigitsWithin(n: nat, k: nat)
    requires k > 0 && n < Pow10(k)
    ensures |Decimal(n)| <= k
  {
    if n >= 10 { DigitsWithin(n / 10, k - 1); }
  }

  lemma {:induction false} DigitsGrowByAtMostOne(m: nat, n: nat)
    requires m < 10 * n + 10
    ensures |Decimal(m)| <= |Decimal(n)| + 1
    decreases m
  {
    if m >= 10 && n >= 10 {
      DigitsGrowByAtMostOne(m / 10, n / 10);
    }
  }

  lemma DigitCounts(lineNo: nat, len: nat, omitted: nat)
    requires lineNo < U32 && omitted <= len <= MAX_STR_LEN
    ensures |Decimal(lineNo)| <= 10 && |Decimal(len)| <= 19 && |Decimal(omitted)| <= 19
  {
    assert Pow10(10) == 10000000000;
    assert Pow10(19) == 10000000000000000000;
    DigitsWithin(lineNo, 10);
    DigitsWithin(len, 19);
    DigitsWithin(omitted, 19);
  }

  lemma FirstEstimate(line: Str, lineNo: nat)
    requires Valid(line) && LINE_BUDGET < |line| <= MAX_STR_LEN && lineNo < U32
    ensures |line| - 350 <= FirstOmitted(line) <= |line|
    ensures ContentBudget(line, lineNo) >= 322
    ensures ContentBudget(line, lineNo) + |Marker(FirstOmitted(line), lineNo, |line|)| == LINE_BUDGET
    ensures ContentBudget(line, lineNo) <= 367
  {
    RoundingIsSmall(line, LINE_HEAD);
    RoundingIsSmall(line, |line| - LINE_TAIL);
    DigitCounts(lineNo, |line|, FirstOmitted(line));
  }

  /** The final cuts leave at most 40 bytes more between them than the first estimate did. */
  lemma CutsAreClose(line: Str, lineNo: nat)
    requires Valid(line) && LINE_BUDGET < |line| <= MAX_STR_LEN && lineNo < U32
    ensures var (h, t) := ElisionCuts(line, lineNo);
      && 0 < h <= t <= |line|
      && h + (|line| - t) <= ContentBudget(line, lineNo)
      && t - h <= FirstOmitted(line) + 40
  {
    hide ContentBudget, FirstOmitted, Floor, Ceil, Valid, Marker, IsBoundary;
    FirstEstimate(line, lineNo);
    var content := ContentBudget(line, lineNo);
    var headN := content * 5 / 7;
    RoundingIsSmall(line, headN);
    RoundingIsSmall(line, |line| - (content - headN));
  }

  /** The one way over the line budget: the final cuts keep all the bytes the first estimate left
      for content, and the omitted count they report has a digit more than the estimated one. */
  lemma OverBudgetExactly(line: Str, lineNo: nat)
    requires Valid(line) && LINE_BUDGET < |line| <= MAX_STR_LEN && lineNo < U32
    ensures |Elided(line, lineNo)| <= LINE_BUDGET + 1
    ensures var (h, t) := ElisionCuts(line, lineNo);
      && h <= t <= |line|
      && (|Elided(line, lineNo)| > LINE_BUDGET <==>
          h + (|line| - t) == ContentBudget(line, lineNo) && |Decimal(t - h)| > |Decimal(FirstOmitted(line))|)
  {
    hide *;
    CutsAreClose(line, lineNo);
    FirstEstimate(line, lineNo);
    ElidedSize(line, lineNo);
    var (h, t) := ElisionCuts(line, lineNo);
    var rest, reserved := h + (|line| - t), |Marker(FirstOmitted(line), lineNo, |line|)|;
    DigitsGrowByAtMostOne(t - h, FirstOmitted(line));
    WhenOver(|Elided(line, lineNo)|, rest, ContentBudget(line, lineNo), reserved, |Decimal(t - h)|,
             |Decimal(FirstOmitted(line))|);
  }

  /** The arithmetic of it: `size` is `rest` and a marker, the estimate is `content` and its marker. */
  lemma WhenOver(size: nat, rest: nat, content: nat, reserved: nat, digits: nat, estimated: nat)
    requires content + reserved == LINE_BUDGET && rest <= content && digits <= estimated + 1
    requires size == rest + reserved - estimated + digits
    ensures size <= LINE_BUDGET + 1
    ensures size > LINE_BUDGET <==> rest == content && digits > estimated
  {
  }

  lemma ElidedSize(line: Str, lineNo: nat)
    requires LINE_BUDGET < |line|
    ensures var (h, t) := ElisionCuts(line, lineNo);
      var estimated := FirstOmitted(line);
      h <= t ==>
        |Elided(line, lineNo)| == h + (|line| - t) + |Marker(estimated, lineNo, |line|)|
                                  - |Decimal(estimated)| + |Decimal(t - h)|
  {
    hide ElisionCuts, Spliced, Marker, Decimal, FirstOmitted;
  }

  lemma ElidedLength(line: Str, lineNo: nat)
    requires Valid(line) && LINE_BUDGET < |line| <= MAX_STR_LEN && lineNo < U32
    ensures |Elided(line, lineNo)| <= LINE_BUDGET + 1
  {
    OverBudgetExactly(line, lineNo);
  }

  /** An elided line is a true prefix, a marker reporting exactly the bytes left out, and a
      true suffix; it is never longer than the input and never over 401 bytes. */
  lemma ElideContract(line: Str, lineNo: nat)
    requires Valid(line) && LINE_BUDGET < |line| <= MAX_STR_LEN && lineNo < U32
    ensures var (h, t) := ElisionCuts(line, lineNo);
      && 0 < h <= t <= |line|
      && Elided(line, lineNo) == Spliced(line, lineNo, h, t - h, t)
    ensures |Elided(line, lineNo)| <= LINE_BUDGET + 1
    ensures |Elided(line, lineNo)| <= |line|
  {
    CutsAreClose(line, lineNo);
    ElidedLength(line, lineNo);
  }

  // ---- an elided line, said of itself ----

  ghost predicate LastBoundary(s: Str, k: nat, max: nat) {
    && k <= max && k <= |s| && IsBoundary(s, k)
    && forall j :: k < j <= max && j <= |s| ==> !IsBoundary(s, j)
  }

  ghost predicate NextBoundary(s: Str, k: nat, min: nat) {
    && min <= k <= |s| && IsBoundary(s, k)
    && forall j :: min <= j < k ==> !IsBoundary(s, j)
  }

  /** `…[<omitted word> n B, log:n, <original word> nB]…` around three numbers. */
  ghost predicate Marks(marker: Str, omitted: nat, lineNo: nat, orig: nat) {
    exists a, b, c :: Spells(a, omitted) && Spells(b, lineNo) && Spells(c, orig) &&
      marker == [0xE2, 0x80, 0xA6, 91, 0xE7, 0x9C, 0x81, 0xE7, 0x95, 0xA5, 32] + a + [32, 66, 44, 32, 108, 111, 103, 58]
                + b + [44, 32, 0xE5, 0x8E, 0x9F, 32] + c + [66, 93, 0xE2, 0x80, 0xA6]
  }

  /** The marker when 250 bytes are kept in front and 100 behind, in whole characters. */
  ghost predicate Estimates(estimate: Str, line: Str, lineNo: nat, f: nat, g: nat)
    requires |line| > 400
  {
    && LastBoundary(line, f, 250) && NextBoundary(line, g, |line| - 100)
    && f <= g && Marks(estimate, g - f, lineNo, |line|)
  }

  /** The bytes for content are what that marker leaves of 400. */
  ghost predicate Leaves(line: Str, lineNo: nat, content: nat)
    requires |line| > 400
  {
    exists estimate, f: nat, g: nat :: Estimates(estimate, line, lineNo, f, g) && |estimate| + content == 400
  }

  /** Five sevenths of the content go in front, the rest of it behind, in whole characters. */
  ghost predicate CutsFor(line: Str, h: nat, t: nat, content: nat) {
    && content <= |line|
    && LastBoundary(line, h, content * 5 / 7) && NextBoundary(line, t, |line| - (content - content * 5 / 7))
  }

  ghost predicate Around(r: Str, line: Str, lineNo: nat, h: nat, t: nat)
    requires h <= t <= |line|
  {
    exists marker :: Marks(marker, t - h, lineNo, |line|) && r == line[..h] + marker + line[t..]
  }

  /** The first `h` bytes and those from `t` on, around a marker that reports what lies between. */
  ghost predicate MarkedCut(r: Str, line: Str, lineNo: nat, h: nat, t: nat) {
    && |line| > 400 && h <= t <= |line|
    && Around(r, line, lineNo, h, t)
    && exists content: nat :: Leaves(line, lineNo, content) && CutsFor(line, h, t, content)
  }

  lemma MarkerMarks(omitted: nat, lineNo: nat, orig: nat)
    ensures Marks(Marker(omitted, lineNo, orig), omitted, lineNo, orig)
  {
    hide Decimal, Spells;
    DecimalSpells(omitted);
    DecimalSpells(lineNo);
    DecimalSpells(orig);
  }

  lemma FloorIsLast(s: Str, max: nat)
    ensures LastBoundary(s, Floor(s, max), max)
  {
  }

  lemma CeilIsNext(s: Str, min: nat)
    requires min <= |s|
    ensures NextBoundary(s, Ceil(s, min), min)
  {
  }

  lemma EstimateLeaves(line: Str, lineNo: nat)
    requires Valid(line) && LINE_BUDGET < |line| <= MAX_STR_LEN && lineNo < U32
    ensures Leaves(line, lineNo, ContentBudget(line, lineNo))
  {
    var f, g := Floor(line, 250), Ceil(line, |line| - 100);
    FloorIsLast(line, 250);
    CeilIsNext(line, |line| - 100);
    FirstEstimate(line, lineNo);
    assert FirstOmitted(line) == g - f;
    MarkerMarks(g - f, lineNo, |line|);
    hide Valid, Floor, Ceil, Marks, LastBoundary, NextBoundary, FirstOmitted, ContentBudget, Marker;
    assert Estimates(Marker(g - f, lineNo, |line|), line, lineNo, f, g);
  }

  lemma CutsAreFor(line: Str, lineNo: nat)
    requires Valid(line) && LINE_BUDGET < |line| <= MAX_STR_LEN && lineNo < U32
    ensures var (h, t) := ElisionCuts(line, lineNo); CutsFor(line, h, t, ContentBudget(line, lineNo))
  {
    hide Valid, Floor, Ceil, LastBoundary, NextBoundary, FirstOmitted, ContentBudget, Marker, IsBoundary;
    var content := ContentBudget(line, lineNo);
    FirstEstimate(line, lineNo);
    FloorIsLast(line, content * 5 / 7);
    CeilIsNext(line, |line| - (content - content * 5 / 7));
  }

  lemma SplicedAround(line: Str, lineNo: nat, h: nat, t: nat)
    requires h <= t <= |line|
    ensures Around(Spliced(line, lineNo, h, t - h, t), line, lineNo, h, t)
  {
    hide Marks, Marker, Decimal;
    MarkerMarks(t - h, lineNo, |line|);
  }

  lemma CutTogether(r: Str, line: Str, lineNo: nat, h: nat, t: nat, content: nat)
    requires |line| > 400 && h <= t <= |line| && Around(r, line, lineNo, h, t)
    requires Leaves(line, lineNo, content) && CutsFor(line, h, t, content)
    ensures MarkedCut(r, line, lineNo, h, t)
  {
    hide Around, Leaves, CutsFor;
  }

  /** What elision makes of a long line. */
  lemma ElidedIsMarked(line: Str, lineNo: nat)
    requires Valid(line) && LINE_BUDGET < |line| <= MAX_STR_LEN && lineNo < U32
    ensures var (h, t) := ElisionCuts(line, lineNo); MarkedCut(Elided(line, lineNo), line, lineNo, h, t)
  {
    LineBudgetIs();
    hide *;
    var (h, t) := ElisionCuts(line, lineNo);
    ElideContract(line, lineNo);
    EstimateLeaves(line, lineNo);
    CutsAreFor(line, lineNo);
    SplicedAround(line, lineNo, h, t);
    CutTogether(Elided(line, lineNo), line, lineNo, h, t, ContentBudget(line, lineNo));
  }

  lemma LineBudgetIs()
    ensures LINE_BUDGET == 400
  {
  }

  lemma ElidedCutSomewhere(line: Str, lineNo: nat)
    requires Valid(line) && LINE_BUDGET < |line| <= MAX_STR_LEN && lineNo < U32
    ensures exists h, t :: MarkedCut(Elided(line, lineNo), line, lineNo, h, t)
  {
    hide MarkedCut, Valid, ElisionCuts, Elided;
    ElidedIsMarked(line, lineNo);
  }

  lemma SplicedValid(line: Str, lineNo: nat, h: nat, omitted: nat, t: nat)
    requires Valid(line) && h <= |line| && t <= |line| && IsBoundary(line, h) && IsBoundary(line, t)
    ensures Valid(Spliced(line, lineNo, h, omitted, t))
  {
    ValidSplit(line, h);
    ValidSplit(line, t);
    MarkerValid(omitted, lineNo, |line|);
    ValidConcat(line[..h], Marker(omitted, lineNo, |line|));
    ValidConcat(line[..h] + Marker(omitted, lineNo, |line|), line[t..]);
  }

  lemma DigitsOfWitness()
    ensures |Decimal(1000349)| == 7 && |Decimal(999999)| == 6 && |Decimal(1000002)| == 7 && |Decimal(4000000000)| == 10
  {
  }

  lemma WitnessCuts(line: Str)
    requires |line| == 1000349 && (forall k :: 0 <= k < |line| ==> line[k] == 97)
    ensures Valid(line)
    ensures ElisionCuts(line, 4000000000).0 + (|line| - ElisionCuts(line, 4000000000).1) == 347
  {
    ValidAscii(line);
    assert forall k :: 0 <= k <= |line| ==> IsBoundary(line, k);
    DigitsOfWitness();
    hide Valid, IsBoundary, Decimal;
  }

  /** The 401st byte is real: a line of 1000349 ASCII bytes reached as log line 4000000000
      gains a digit when the omitted count is recomputed. */
  lemma ElideBoundIsAttained(line: Str)
    requires |line| == 1000349 && (forall k :: 0 <= k < |line| ==> line[k] == 97)
    ensures Valid(line) && |Elided(line, 4000000000)| == LINE_BUDGET + 1
  {
    WitnessCuts(line);
    DigitsOfWitness();
    hide Valid, IsBoundary, ElisionCuts, Decimal;
  }

  lemma ElidedValid(line: Str, lineNo: nat)
    requires Valid(line)
    ensures Valid(Elided(line, lineNo))
  {
    hide ElisionCuts;
    hide Spliced;
    if |line| > LINE_BUDGET {
      var cuts := ElisionCuts(line, lineNo);
      SplicedValid(line, lineNo, cuts.0, SatSub(|line|, cuts.0 + (|line| - cuts.1)), cuts.1);
    }
  }

  /** A rendered line never grows, whatever its length. */
  lemma ElidedShrinks(line: Str, lineNo: nat)
    requires Valid(line) && |line| <= MAX_STR_LEN && lineNo < U32
    ensures |Elided(line, lineNo)| <= |line|
  {
    if |line| > LINE_BUDGET { ElidedLength(line, lineNo); }
  }
}
