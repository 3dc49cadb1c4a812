/** `gate_log_lines` (crates/rc-core/src/budget.rs): whole-line pages and raw byte pages. */
module LogPaging {
  import opened Text
  import opened Utf8
  import opened Budget
  import opened Layout

  datatype BudgetedText = BudgetedText(
    text: Str,
    bytesOmitted: nat,
    nextOffset: nat,
    nextByteOffset: nat,
    lineByteOffset: nat,
    lineNo: Str)

  /** One line as it is shown; `line_no as u32` wraps. */
  function Shown(line: Str, lineNo: nat, raw: bool): Str {
    if raw then line else Elided(line, lineNo % U32)
  }

  function ShownLines(lines: seq<Str>, start: nat, raw: bool): (r: seq<Str>)
    ensures |r| == |lines|
  {
    seq(|lines|, i requires 0 <= i < |lines| => Shown(lines[i], start + i, raw))
  }

  /** The page text of some shown lines: a break is written only after non-empty text. */
  function PageText(shown: seq<Str>): Str {
    if shown == [] then []
    else
      var before := PageText(shown[..|shown| - 1]);
      var last := shown[|shown| - 1];
      if before == [] then last else before + [NEWLINE] + last
  }

  function OmittedBytes(lines: seq<Str>, start: nat, raw: bool): nat {
    if lines == [] then 0
    else
      var k := |lines| - 1;
      OmittedBytes(lines[..k], start, raw) + SatSub(|lines[k]|, |Shown(lines[k], start + k, raw)|)
  }

  /** A raw page of one line: the bytes from `offset`, cut at a boundary, and where to go on
      (0 when the line is finished). */
  function RawPage(line: Str, startLineNo: nat, offset: nat, budget: nat): BudgetedText {
    if offset > 0 then
      var start := Ceil(line, Min(offset, |line|));
      var chunk := Truncated(line[start..], budget);
      var next := start + |chunk|;
      BudgetedText(chunk, |line| - next, startLineNo, if next < |line| then next else 0, offset, Decimal(startLineNo))
    else if |line| > budget then
      var chunk := Truncated(line, budget);
      BudgetedText(chunk, |line| - |chunk|, startLineNo, |chunk|, 0, Decimal(startLineNo))
    else
      BudgetedText(line, 0, startLineNo + 1, 0, 0, [])
  }

  /** Whether the answer is a slice of the first line rather than whole lines. */
  predicate Slices(lines: seq<Str>, raw: bool, lineByteOffset: nat, budget: nat) {
    raw && lines != [] && (lineByteOffset > 0 || |lines[0]| > budget)
  }

  /** A whole-line page: `nextOffset - start` lines, exactly as many as fit. */
  ghost predicate IsWholeLinePage(r: BudgetedText, lines: seq<Str>, start: nat, raw: bool, budget: nat) {
    var shown := ShownLines(lines, start, raw);
    var n := r.nextOffset - start;
    && 0 <= n <= |lines|
    && r.text == PageText(shown[..n])
    && (forall k :: 0 <= k <= |lines| ==> (|PageText(shown[..k])| <= budget <==> k <= n))
    && r.bytesOmitted == OmittedBytes(lines[..if n < |lines| then n + 1 else n], start, raw)
    && r.nextByteOffset == r.lineByteOffset == 0 && r.lineNo == []
  }

  method GateLogLines(lines: seq<Str>, start: nat, raw: bool, lineByteOffset: nat, headerReserve: nat)
    returns (r: BudgetedText)
    ensures var budget := SatSub(RESPONSE_BUDGET, headerReserve);
      if Slices(lines, raw, lineByteOffset, budget)
      then r == RawPage(lines[0], start, lineByteOffset, budget)
      else IsWholeLinePage(r, lines, start, raw, budget)
    ensures |r.text| <= SatSub(RESPONSE_BUDGET, headerReserve)
    ensures Slices(lines, raw, lineByteOffset, SatSub(RESPONSE_BUDGET, headerReserve)) ==>
      exists from :: SlicedFrom(r, lines[0], start, lineByteOffset, SatSub(RESPONSE_BUDGET, headerReserve), from)
  {
    if Slices(lines, raw, lineByteOffset, SatSub(RESPONSE_BUDGET, headerReserve)) {
      RawPageIsSliced(lines[0], start, lineByteOffset, SatSub(RESPONSE_BUDGET, headerReserve));
    }
    hide SlicedFrom, IsWholeLinePage;
    var budget := SatSub(RESPONSE_BUDGET, headerReserve);
    if raw && lines != [] && lineByteOffset > 0 {
      r := Continuation(lines[0], start, lineByteOffset, budget);
    } else if raw && lines != [] && |lines[0]| > budget {
      // The loop meets this case on its first line only, before any text is kept.
      var chunk := TruncateBytes(lines[0], budget);
      r := BudgetedText(chunk, |lines[0]| - |chunk|, start, |chunk|, 0, Decimal(start));
    } else {
      r := WholeLines(lines, start, raw, budget);
    }
  }

  /** The slice of a line from the first boundary at or after `offset`, and where to go on with it. */
  ghost predicate SlicedFrom(r: BudgetedText, line: Str, start: nat, offset: nat, budget: nat, from: nat) {
    && from <= |line| && NextBoundary(line, from, if offset < |line| then offset else |line|)
    && Clipped(r.text, line[from..], budget)
    && r.bytesOmitted == |line| - (from + |r.text|)
    && r.nextOffset == start && r.lineByteOffset == offset && Spells(r.lineNo, start)
    && r.nextByteOffset == if from + |r.text| < |line| then from + |r.text| else 0
  }

  lemma RawPageIsSliced(line: Str, start: nat, offset: nat, budget: nat)
    requires offset > 0 || |line| > budget
    ensures SlicedFrom(RawPage(line, start, offset, budget), line, start, offset, budget,
                       Ceil(line, Min(offset, |line|)))
  {
    assert Min(offset, |line|) <= |line|;
    hide *;
    var from := Ceil(line, Min(offset, |line|));
    var chunk := Truncated(line[from..], budget);
    CeilIsNext(line, Min(offset, |line|));
    DecimalSpells(start);
    TruncatedClips(line[from..], budget);
    RawPageFields(line, start, offset, budget);
    SlicedTogether(line, start, offset, budget, from, chunk);
  }

  lemma RawPageFields(line: Str, start: nat, offset: nat, budget: nat)
    requires offset > 0 || |line| > budget
    ensures var from := Ceil(line, Min(offset, |line|));
      && from <= |line|
      && var chunk := Truncated(line[from..], budget);
      && var next := from + |chunk|;
      && RawPage(line, start, offset, budget) ==
         BudgetedText(chunk, |line| - next, start, if next < |line| then next else 0, offset, Decimal(start))
  {
    hide Decimal, Truncated, Ceil;
    if offset == 0 {
      CeilOfNothing(line);
      assert line[0..] == line;
    }
  }

  lemma SlicedTogether(line: Str, start: nat, offset: nat, budget: nat, from: nat, chunk: Str)
    requires from <= |line| && NextBoundary(line, from, Min(offset, |line|)) && Clipped(chunk, line[from..], budget)
    requires Spells(Decimal(start), start) && from + |chunk| <= |line|
    ensures var next := from + |chunk|;
      SlicedFrom(BudgetedText(chunk, |line| - next, start, if next < |line| then next else 0, offset, Decimal(start)),
                 line, start, offset, budget, from)
  {
    hide NextBoundary, Clipped, Spells, Decimal;
  }

  lemma CeilOfNothing(line: Str)
    ensures Ceil(line, 0) == 0
  {
  }

  lemma TruncatedClips(s: Str, max: nat)
    ensures Clipped(Truncated(s, max), s, max)
  {
  }

  lemma ShownAt(lines: seq<Str>, start: nat, raw: bool, i: nat)
    requires i < |lines|
    ensures ShownLines(lines, start, raw)[i] == Shown(lines[i], start + i, raw)
  {
    hide Shown;
  }

  lemma PageTextOfMore(shown: seq<Str>, i: nat)
    requires i < |shown|
    ensures PageText(shown[..i + 1]) ==
      if PageText(shown[..i]) == [] then shown[i] else PageText(shown[..i]) + [NEWLINE] + shown[i]
  {
    assert shown[..i + 1][..i] == shown[..i];
  }

  lemma OmittedOfMore(lines: seq<Str>, start: nat, raw: bool, i: nat)
    requires i < |lines|
    ensures OmittedBytes(lines[..i + 1], start, raw) ==
      OmittedBytes(lines[..i], start, raw) + SatSub(|lines[i]|, |Shown(lines[i], start + i, raw)|)
  {
    hide Shown;
    assert lines[..i + 1][..i] == lines[..i];
  }

  ghost function TotalLength(lines: seq<Str>): nat {
    if lines == [] then 0 else TotalLength(lines[..|lines| - 1]) + |lines[|lines| - 1]|
  }

  /** The bytes reported as omitted are those the shown lines lack. */
  lemma {:induction false} OmittedAreMissing(lines: seq<Str>, start: nat, raw: bool)
    requires forall k :: 0 <= k < |lines| ==> Valid(lines[k]) && |lines[k]| <= MAX_STR_LEN
    ensures TotalLength(lines) == TotalLength(ShownLines(lines, start, raw)) + OmittedBytes(lines, start, raw)
  {
    hide Elided, Valid;
    if lines != [] {
      var n := |lines| - 1;
      OmittedAreMissing(lines[..n], start, raw);
      var shown := ShownLines(lines, start, raw);
      assert shown[..n] == ShownLines(lines[..n], start, raw);
      ElidedShrinks(lines[n], (start + n) % U32);
    }
  }

  lemma NoLines(lines: seq<Str>, start: nat, raw: bool)
    ensures PageText(ShownLines(lines, start, raw)[..0]) == [] && OmittedBytes(lines[..0], start, raw) == 0
  {
  }

  method WholeLines(lines: seq<Str>, start: nat, raw: bool, budget: nat) returns (r: BudgetedText)
    requires raw && lines != [] ==> |lines[0]| <= budget
    ensures IsWholeLinePage(r, lines, start, raw, budget)
    ensures |r.text| <= budget
  {
    hide Shown, ShownLines, PageText, OmittedBytes;
    NoLines(lines, start, raw);
    var text, bytesOmitted, nextOffset := [], 0, start;
    ghost var shown := ShownLines(lines, start, raw);
    var i := 0;
    while i < |lines|
      invariant i <= |lines| && nextOffset == start + i
      invariant text == PageText(shown[..i]) && |text| <= budget
      invariant bytesOmitted == OmittedBytes(lines[..i], start, raw)
    {
      var line, lineNo := lines[i], start + i;
      var rendered := RenderLine(line, lineNo, raw);
      bytesOmitted := bytesOmitted + SatSub(|line|, |rendered|);
      ShownAt(lines, start, raw, i);
      PageTextOfMore(shown, i);
      OmittedOfMore(lines, start, raw, i);
      var add := if text == [] then |rendered| else |rendered| + 1;
      if |text| + add > budget {
        break;
      }
      if text != [] {
        text := text + [NEWLINE];
      }
      text := text + rendered;
      nextOffset := lineNo + 1;
      i := i + 1;
    }
    FitsExactly(shown, i, budget);
    assert lines[..|lines|] == lines;
    r := BudgetedText(text, bytesOmitted, nextOffset, 0, 0, []);
  }

  /** The raw continuation of a line already begun. */
  method Continuation(line: Str, start: nat, lineByteOffset: nat, budget: nat) returns (r: BudgetedText)
    requires lineByteOffset > 0
    ensures r == RawPage(line, start, lineByteOffset, budget)
  {
    var from := if lineByteOffset > |line| then |line| else lineByteOffset;
    var at := SkipToBoundary(line, from);
    var rest := line[at..];
    var chunk := TruncateBytes(rest, budget);
    var next := at + |chunk|;
    r := BudgetedText(chunk, SatSub(|rest|, |chunk|), start,
      if next < |line| then next else 0, lineByteOffset, Decimal(start));
  }

  method RenderLine(line: Str, lineNo: nat, raw: bool) returns (r: Str)
    ensures r == Shown(line, lineNo, raw)
  {
    if raw {
      r := line;
    } else {
      r := ElideLine(line, lineNo % U32);
    }
  }

  lemma FitsExactly(shown: seq<Str>, n: nat, budget: nat)
    requires n <= |shown| && |PageText(shown[..n])| <= budget
    requires n < |shown| ==> |PageText(shown[..n + 1])| > budget
    ensures forall k :: 0 <= k <= |shown| ==> (|PageText(shown[..k])| <= budget <==> k <= n)
  {
    forall k | 0 <= k <= |shown| ensures |PageText(shown[..k])| <= budget <==> k <= n {
      if k <= n {
        PageTextGrows(shown, k, n);
      } else {
        PageTextGrows(shown, n + 1, k);
      }
    }
  }

  lemma {:induction false} PageTextGrows(shown: seq<Str>, j: nat, k: nat)
    requires j <= k <= |shown|
    ensures |PageText(shown[..j])| <= |PageText(shown[..k])|
  {
    if j < k {
      PageTextGrows(shown, j, k - 1);
      assert shown[..k][..k - 1] == shown[..k - 1];
    }
  }

  /** The page text is the lines joined by breaks, except that leading empty lines leave no
      trace: that is the one case where it is not. */
  lemma {:induction false} PageTextIsJoin(shown: seq<Str>)
    ensures PageText(shown) == Join(shown, [NEWLINE]) <==> |shown| <= 1 || shown[0] != []
  {
    if |shown| > 1 {
      var init := shown[..|shown| - 1];
      var last := shown[|shown| - 1];
      assert shown == init + [last];
      JoinAppend(init, last, [NEWLINE]);
      if shown[0] == [] {
        PageTextWithin(shown);
      } else {
        PageTextIsJoin(init);
        PageTextNonEmpty(init);
      }
    } else if |shown| == 1 {
      assert shown[..0] == [];
    }
  }

  lemma {:induction false} PageTextWithin(shown: seq<Str>)
    ensures |PageText(shown)| <= |Join(shown, [NEWLINE])|
    ensures |shown| > 1 && shown[0] == [] ==> |PageText(shown)| < |Join(shown, [NEWLINE])|
  {
    if shown != [] {
      var init := shown[..|shown| - 1];
      assert shown == init + [shown[|shown| - 1]];
      PageTextWithin(init);
      if init != [] { JoinAppend(init, shown[|shown| - 1], [NEWLINE]); }
    }
  }

  lemma {:induction false} PageTextNonEmpty(shown: seq<Str>)
    requires shown != [] && shown[0] != []
    ensures PageText(shown) != []
  {
    if |shown| > 1 { PageTextNonEmpty(shown[..|shown| - 1]); }
  }

  /** The lines without the empty ones they start with. */
  function DropLeadingEmpty(shown: seq<Str>): (r: seq<Str>)
    ensures r != [] ==> r[0] != []
  {
    if shown == [] || shown[0] != [] then shown else DropLeadingEmpty(shown[1..])
  }

  lemma {:induction false} DropLeadingEmptyOfMore(shown: seq<Str>, last: Str)
    ensures DropLeadingEmpty(shown + [last]) ==
      if DropLeadingEmpty(shown) != [] then DropLeadingEmpty(shown) + [last]
      else if last != [] then [last] else []
  {
    if shown == [] {
      assert [last][1..] == [] && shown + [last] == [last];
    } else if shown[0] == [] {
      DropLeadingEmptyOfMore(shown[1..], last);
      assert (shown + [last])[1..] == shown[1..] + [last];
    }
  }

  /** A page is the join of its lines without the empty ones at its start, and loses nothing else. */
  lemma {:induction false} PageTextDropsLeadingEmpty(shown: seq<Str>)
    ensures PageText(shown) == Join(DropLeadingEmpty(shown), [NEWLINE])
  {
    if shown != [] {
      var init, last := shown[..|shown| - 1], shown[|shown| - 1];
      assert shown == init + [last];
      PageTextDropsLeadingEmpty(init);
      DropLeadingEmptyOfMore(init, last);
      var kept := DropLeadingEmpty(init);
      if kept != [] {
        JoinAppend(kept, last, [NEWLINE]);
        JoinNonEmpty(kept);
      }
    }
  }

  lemma JoinNonEmpty(parts: seq<Str>)
    requires parts != [] && parts[0] != []
    ensures Join(parts, [NEWLINE]) != []
  {
  }

  // ---- reading a log page by page ----

  /** How many lines go on a page that holds `k` already. */
  function FitCount(shown: seq<Str>, budget: nat, k: nat): (n: nat)
    requires k <= |shown|
    ensures k <= n <= |shown|
    ensures |PageText(shown[..k])| <= budget ==> |PageText(shown[..n])| <= budget
    ensures n < |shown| ==> |PageText(shown[..n + 1])| > budget
    decreases |shown| - k
  {
    if k < |shown| && |PageText(shown[..k + 1])| <= budget then FitCount(shown, budget, k + 1) else k
  }

  /** The line at which a client that follows `nextOffset` from `at` gets no further. */
  function Reached(all: seq<Str>, at: nat, raw: bool, budget: nat): nat
    requires at <= |all|
    decreases |all| - at
  {
    var n := FitCount(ShownLines(all[at..], at, raw), budget, 0);
    if n == 0 then at else Reached(all, at + n, raw, budget)
  }

  /** The cursor of a page of whole lines is what that client follows. */
  lemma PageGoesOn(all: seq<Str>, at: nat, raw: bool, budget: nat, r: BudgetedText)
    requires at <= |all| && IsWholeLinePage(r, all[at..], at, raw, budget)
    ensures r.nextOffset == at + FitCount(ShownLines(all[at..], at, raw), budget, 0)
  {
    hide Shown;
    var shown := ShownLines(all[at..], at, raw);
    var c := FitCount(shown, budget, 0);
    assert PageText(shown[..0]) == [];
    var n := r.nextOffset - at;
    assert |PageText(shown[..c])| <= budget;
    assert c <= n;
    var k := if c < |shown| then c + 1 else c;
    assert |PageText(shown[..k])| <= budget <==> k <= n;
  }

  lemma {:induction false} LineWithinPage(shown: seq<Str>, k: nat)
    requires k < |shown|
    ensures |shown[k]| <= |PageText(shown)|
  {
    if k < |shown| - 1 { LineWithinPage(shown[..|shown| - 1], k); }
  }

  lemma LinesOfPageFit(shown: seq<Str>, budget: nat, k: nat)
    requires k < FitCount(shown, budget, 0)
    ensures |shown[k]| <= budget
  {
    var page := shown[..FitCount(shown, budget, 0)];
    assert PageText(shown[..0]) == [];
    LineWithinPage(page, k);
  }

  lemma EmptyPage(shown: seq<Str>, budget: nat)
    requires shown != [] && FitCount(shown, budget, 0) == 0
    ensures |shown[0]| > budget
  {
    assert shown[..1] == [shown[0]] && shown[..1][..0] == [];
  }

  /** Following the pages stops at the first line that does not fit on a page of its own, so it
      covers the log exactly when every rendered line fits. */
  lemma {:induction false} PagesCoverExactly(all: seq<Str>, at: nat, raw: bool, budget: nat)
    requires at <= |all|
    ensures var stop := Reached(all, at, raw, budget);
      && at <= stop <= |all|
      && (forall k: nat :: at <= k < stop ==> |Shown(all[k], k, raw)| <= budget)
      && (stop < |all| ==> |Shown(all[stop], stop, raw)| > budget)
      && (stop == |all| <==> forall k: nat :: at <= k < |all| ==> |Shown(all[k], k, raw)| <= budget)
    decreases |all| - at
  {
    hide Shown, ShownLines, PageText;
    var shown := ShownLines(all[at..], at, raw);
    var n := FitCount(shown, budget, 0);
    if n == 0 {
      if at < |all| {
        EmptyPage(shown, budget);
        ShownAt(all[at..], at, raw, 0);
      }
    } else {
      forall k: nat | at <= k < at + n ensures |Shown(all[k], k, raw)| <= budget {
        LinesOfPageFit(shown, budget, k - at);
        ShownAt(all[at..], at, raw, k - at);
      }
      PagesCoverExactly(all, at + n, raw, budget);
    }
  }

  /** Elided lines always fit, so a log read that way is covered with 401 bytes to a page. */
  lemma ElidedLogsAreCovered(all: seq<Str>, budget: nat)
    requires budget > LINE_BUDGET && forall k :: 0 <= k < |all| ==> Valid(all[k]) && |all[k]| <= MAX_STR_LEN
    ensures Reached(all, 0, false, budget) == |all|
  {
    PagesCoverExactly(all, 0, false, budget);
    forall k: nat | k < |all| ensures |Shown(all[k], k, false)| <= budget {
      if |all[k]| > LINE_BUDGET { ElidedLength(all[k], k % U32); }
    }
  }

  // ---- raw paging ----

  /** Where a raw page that starts at `offset` stops. */
  function PageEnd(line: Str, offset: nat, budget: nat): (e: nat)
    requires offset <= |line|
    ensures offset <= e <= |line|
  {
    offset + Floor(line[offset..], budget)
  }

  lemma PageEndAdvances(line: Str, offset: nat, budget: nat)
    requires Valid(line) && budget >= 4
    requires offset < |line| && IsBoundary(line, offset)
    ensures offset < PageEnd(line, offset, budget) && IsBoundary(line, PageEnd(line, offset, budget))
  {
    var rest := line[offset..];
    var e := PageEnd(line, offset, budget);
    ValidSplit(line, offset);
    if budget < |rest| {
      RoundingIsSmall(rest, budget);
    }
    assert e < |line| ==> rest[e - offset] == line[e];
  }

  /** A page is the bytes up to its end, and reports the end unless the line is finished. */
  lemma RawPageIsSlice(line: Str, startLineNo: nat, offset: nat, budget: nat)
    requires offset < |line| && IsBoundary(line, offset)
    ensures var page, e := RawPage(line, startLineNo, offset, budget), PageEnd(line, offset, budget);
      && page.text == line[offset..e]
      && page.bytesOmitted == |line| - e
      && page.nextByteOffset == (if e < |line| then e else 0)
  {
    assert Ceil(line, offset) == offset;
    assert offset == 0 ==> line[offset..] == line;
  }

  /** The pages a client sees by following `nextByteOffset` until it is 0. */
  function RawPages(line: Str, startLineNo: nat, offset: nat, budget: nat): seq<Str>
    requires Valid(line) && budget >= 4
    requires offset < |line| && IsBoundary(line, offset)
    decreases |line| - offset
  {
    var page := RawPage(line, startLineNo, offset, budget);
    RawPageIsSlice(line, startLineNo, offset, budget);
    PageEndAdvances(line, offset, budget);
    if page.nextByteOffset == 0 then [page.text]
    else [page.text] + RawPages(line, startLineNo, page.nextByteOffset, budget)
  }

  /** The slice that finishes a line names that line again, from its start: a client that goes on at
      both cursors reads it once more. */
  lemma LastSliceRestarts(line: Str, startLineNo: nat, offset: nat, budget: nat)
    requires Valid(line) && budget >= 4
    requires offset < |line| && IsBoundary(line, offset) && Slices([line], true, offset, budget)
    ensures var page := RawPage(line, startLineNo, offset, budget);
      && page.nextOffset == startLineNo
      && (page.nextByteOffset == 0 <==> PageEnd(line, offset, budget) == |line|)
  {
    RawPageIsSlice(line, startLineNo, offset, budget);
    PageEndAdvances(line, offset, budget);
  }

  function Concat(parts: seq<Str>): Str {
    if parts == [] then [] else parts[0] + Concat(parts[1..])
  }

  /** Following the offsets ends, and the slices are the line, nothing lost or repeated. */
  lemma {:induction false} RawPagesReassemble(line: Str, startLineNo: nat, offset: nat, budget: nat)
    requires Valid(line) && budget >= 4
    requires offset < |line| && IsBoundary(line, offset)
    ensures Concat(RawPages(line, startLineNo, offset, budget)) == line[offset..]
    decreases |line| - offset
  {
    hide RawPage;
    RawPageIsSlice(line, startLineNo, offset, budget);
    PageEndAdvances(line, offset, budget);
    var page := RawPage(line, startLineNo, offset, budget);
    var e := PageEnd(line, offset, budget);
    if e < |line| {
      RawPagesReassemble(line, startLineNo, e, budget);
      assert line[offset..] == line[offset..e] + line[e..];
    } else {
      assert Concat([page.text]) == page.text;
    }
  }

  /** A line that fits is one page, and the method agrees with the slices it is made of. */
  lemma SingleLinePage(line: Str, start: nat, budget: nat, r: BudgetedText)
    requires |line| <= budget && IsWholeLinePage(r, [line], start, true, budget)
    ensures r == RawPage(line, start, 0, budget)
  {
    var shown := ShownLines([line], start, true);
    assert shown == [line];
    assert [line][..1] == [line] && [line][..0] == [];
    assert PageText(shown[..1]) == line;
    assert 1 <= r.nextOffset - start;
    assert OmittedBytes([line], start, true) == 0;
  }
}
