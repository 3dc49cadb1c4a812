/** `gate_response` and `assemble_result_with_notices` (crates/rc-core/src/budget.rs), and what
    they promise together: the answer never exceeds the budget, and Critical lines survive. */
module Gate {
  import opened Text
  import opened Utf8
  import opened Budget
  import opened Response
  import opened Layout

  // The marker's words, in Chinese: response limit reached.
  const LIMIT_WORDS: Str := [0xE5, 0x93, 0x8D, 0xE5, 0xBA, 0x94, 0xE8, 0xBE, 0xBE, 0xE4, 0xB8, 0x8A, 0xE9, 0x99, 0x90]
  const LIMIT_MARKER: Str := ELLIPSIS + [91] + LIMIT_WORDS + [32, 56, 49, 57, 50, 66, 93]

  /** Index of the first line break, or the length. */
  function LineEnd(text: Str): (e: nat)
    ensures e <= |text|
    ensures forall k :: 0 <= k < e ==> text[k] != NEWLINE
    ensures e < |text| ==> text[e] == NEWLINE
  {
    if text == [] || text[0] == NEWLINE then 0 else 1 + LineEnd(text[1..])
  }

  function StripCr(line: Str): (r: Str)
    ensures r <= line
    ensures CR !in line ==> r == line
  {
    if line != [] && line[|line| - 1] == CR then line[..|line| - 1] else line
  }

  /** `str::lines`: no empty last line, and a carriage return goes with its line break. */
  function Lines(text: Str): seq<Str>
    decreases |text|
  {
    if text == [] then []
    else
      var e := LineEnd(text);
      if e == |text| then [text] else [StripCr(text[..e])] + Lines(text[e + 1..])
  }

  function Rendered(lines: seq<Str>, first: nat): (r: seq<Str>)
    ensures |r| == |lines|
  {
    seq(|lines|, i requires 0 <= i < |lines| => Elided(lines[i], (first + i) % U32))
  }

  function Gated(text: Str): Str {
    var joined := Join(Rendered(Lines(text), 1), [NEWLINE]);
    if |joined| <= RESPONSE_BUDGET then joined
    else Truncated(joined, SatSub(RESPONSE_BUDGET, |LIMIT_MARKER|)) + LIMIT_MARKER
  }

  /** What fits in front of the marker, and the marker. */
  ghost predicate Capped(r: Str, joined: Str) {
    exists head :: Clipped(head, joined, 8192 - |LIMIT_MARKER|) && r == head + LIMIT_MARKER
  }

  lemma GatedIsCapped(text: Str)
    ensures var joined := Join(Rendered(Lines(text), 1), [NEWLINE]);
      if |joined| <= 8192 then Gated(text) == joined else Capped(Gated(text), joined)
  {
    hide Lines, Rendered, Join, Truncated, Clipped;
    TruncatedIsClipped(Join(Rendered(Lines(text), 1), [NEWLINE]), SatSub(RESPONSE_BUDGET, |LIMIT_MARKER|));
  }

  method GateResponse(text: Str) returns (r: Str)
    ensures r == Gated(text)
    ensures |r| <= RESPONSE_BUDGET
    ensures var joined := Join(Rendered(Lines(text), 1), [NEWLINE]);
      if |joined| <= 8192 then r == joined else Capped(r, joined)
  {
    GatedIsCapped(text);
    hide Elided, Lines, Capped, Truncated;
    var source := Lines(text);
    var lines := [];
    for i := 0 to |source|
      invariant lines == Rendered(source, 1)[..i]
    {
      var line := ElideLine(source[i], (i + 1) % U32);
      lines := lines + [line];
    }
    assert lines == Rendered(source, 1);
    var joined := Join(lines, [NEWLINE]);
    if |joined| <= RESPONSE_BUDGET {
      return joined;
    }
    var head := TruncateBytes(joined, SatSub(RESPONSE_BUDGET, |LIMIT_MARKER|));
    r := head + LIMIT_MARKER;
  }

  // ---- lines ----

  lemma {:induction false} LinesAcrossBreak(a: Str, b: Str)
    requires EndsLine(a)
    ensures Lines(a + b) == Lines(a) + Lines(b)
    decreases |a|
  {
    if a == [] {
      assert a + b == b;
    } else {
      var e := LineEnd(a);
      assert e < |a|;
      LineEndIs(a + b, e);
      assert (a + b)[..e] == a[..e];
      assert (a + b)[e + 1..] == a[e + 1..] + b;
      LinesAcrossBreak(a[e + 1..], b);
    }
  }

  lemma LineEndIs(text: Str, e: nat)
    requires e < |text| && text[e] == NEWLINE && forall k :: 0 <= k < e ==> text[k] != NEWLINE
    ensures LineEnd(text) == e
  {
  }

  lemma CutAtAscii(text: Str, e: nat)
    requires Valid(text) && e < |text| && text[e] < 128
    ensures Valid(text[..e]) && Valid(text[e + 1..])
  {
    ValidSplit(text, e);
    assert text[e..][1..] == text[e + 1..];
  }

  lemma FirstLineValid(text: Str, e: nat)
    requires Valid(text) && e < |text| && text[e] == NEWLINE
    ensures Valid(StripCr(text[..e])) && |StripCr(text[..e])| <= e && Valid(text[e + 1..])
  {
    hide Valid;
    CutAtAscii(text, e);
    var line := text[..e];
    if line != [] && line[|line| - 1] == CR {
      CutAtAscii(line, |line| - 1);
    }
  }

  lemma {:induction false} LinesAreValid(text: Str)
    requires Valid(text)
    ensures forall l :: l in Lines(text) ==> Valid(l) && |l| <= |text|
    decreases |text|
  {
    hide *;
    var e := LineEnd(text);
    if e == |text| {
      OneLineOnly(text);
    } else {
      LinesStart(text);
      FirstLineValid(text, e);
      LinesAreValid(text[e + 1..]);
    }
  }

  lemma OneLineOnly(text: Str)
    requires LineEnd(text) == |text|
    ensures forall l :: l in Lines(text) ==> l == text
  {
    hide LineEnd, StripCr;
  }

  lemma LinesStart(text: Str)
    requires LineEnd(text) < |text|
    ensures Lines(text) == [StripCr(text[..LineEnd(text)])] + Lines(text[LineEnd(text) + 1..])
  {
    hide LineEnd, StripCr;
  }

  lemma {:induction false} JoinNoLonger(a: seq<Str>, b: seq<Str>)
    requires |a| == |b| && forall i :: 0 <= i < |a| ==> |a[i]| <= |b[i]|
    ensures |Join(a, [NEWLINE])| <= |Join(b, [NEWLINE])|
  {
    if |a| > 1 { JoinNoLonger(a[1..], b[1..]); }
  }

  lemma {:induction false} JoinLinesNoLonger(text: Str)
    ensures |Join(Lines(text), [NEWLINE])| <= |text|
    decreases |text|
  {
    if text != [] {
      var e := LineEnd(text);
      if e < |text| {
        var rest := Lines(text[e + 1..]);
        JoinLinesNoLonger(text[e + 1..]);
        assert Lines(text)[1..] == rest;
        assert rest == [] ==> Join(Lines(text), [NEWLINE]) == StripCr(text[..e]);
      }
    }
  }

  lemma RenderedShrinks(lines: seq<Str>)
    requires forall l :: l in lines ==> Valid(l) && |l| <= MAX_STR_LEN
    ensures |Join(Rendered(lines, 1), [NEWLINE])| <= |Join(lines, [NEWLINE])|
  {
    hide Elided;
    forall i | 0 <= i < |lines| ensures |Rendered(lines, 1)[i]| <= |lines[i]| {
      ElidedShrinks(lines[i], (1 + i) % U32);
    }
    JoinNoLonger(Rendered(lines, 1), lines);
  }

  /** Gating a text that fits never truncates it: elision only shrinks lines. */
  lemma GateOfFitting(text: Str)
    requires Valid(text) && |text| <= RESPONSE_BUDGET
    ensures Gated(text) == Join(Rendered(Lines(text), 1), [NEWLINE])
    ensures |Gated(text)| <= RESPONSE_BUDGET
  {
    LinesAreValid(text);
    RenderedShrinks(Lines(text));
    JoinLinesNoLonger(text);
  }

  /** The break that `str::lines` does not show. */
  function LastBreak(text: Str): Str {
    if text != [] && text[|text| - 1] == NEWLINE then [NEWLINE] else []
  }

  lemma LinesUnfold(text: Str)
    requires CR !in text && LineEnd(text) < |text|
    ensures Lines(text) == [text[..LineEnd(text)]] + Lines(text[LineEnd(text) + 1..])
  {
    hide *;
    LinesStart(text);
    assert CR !in text[..LineEnd(text)];
  }

  lemma BreakSplit(text: Str, e: nat)
    requires e < |text| && text[e] == NEWLINE
    ensures text == text[..e] + [NEWLINE] + text[e + 1..]
    ensures LastBreak(text) == if text[e + 1..] == [] then [NEWLINE] else LastBreak(text[e + 1..])
  {
  }

  lemma NoLines(text: Str)
    ensures Lines(text) == [] <==> text == []
  {
    hide LineEnd, StripCr;
  }

  lemma OneLine(text: Str)
    requires LineEnd(text) == |text|
    ensures text == Join(Lines(text), [NEWLINE]) + LastBreak(text)
    ensures forall l :: l in Lines(text) ==> NEWLINE !in l
  {
    assert text != [] ==> text[|text| - 1] != NEWLINE;
    hide LineEnd, StripCr;
  }

  lemma OneLineMore(text: Str, e: nat, lines: seq<Str>, rest: seq<Str>)
    requires e < |text| && text[e] == NEWLINE && lines == [text[..e]] + rest
    requires text[e + 1..] == Join(rest, [NEWLINE]) + LastBreak(text[e + 1..])
    requires rest == [] <==> text[e + 1..] == []
    ensures text == Join(lines, [NEWLINE]) + LastBreak(text)
  {
    BreakSplit(text, e);
    JoinFront(text[..e], rest);
    hide *;
    if rest != [] {
      assert text == text[..e] + [NEWLINE] + (Join(rest, [NEWLINE]) + LastBreak(text));
    }
  }

  /** Without carriage returns the lines are the text between its breaks. */
  lemma {:induction false} LinesJoinBack(text: Str)
    requires CR !in text
    ensures text == Join(Lines(text), [NEWLINE]) + LastBreak(text)
    ensures forall l :: l in Lines(text) ==> NEWLINE !in l
    decreases |text|
  {
    hide *;
    var e := LineEnd(text);
    if e == |text| {
      OneLine(text);
    } else {
      LinesJoinBack(text[e + 1..]);
      LinesUnfold(text);
      NoLines(text[e + 1..]);
      OneLineMore(text, e, Lines(text), Lines(text[e + 1..]));
    }
  }

  lemma JoinFront(first: Str, rest: seq<Str>)
    ensures Join([first] + rest, [NEWLINE]) == if rest == [] then first else first + [NEWLINE] + Join(rest, [NEWLINE])
  {
    assert ([first] + rest)[1..] == rest;
  }

  // ---- the composition ----

  /** `assemble_result_with_notices`. */
  function ResultWithNotices(body: Str, critical: Str, info: Str): Str {
    Packed(body, [[], info, []], critical)
  }

  method AssembleResultWithNotices(body: Str, critical: Str, info: Str) returns (out: Str)
    ensures out == ResultWithNotices(body, critical, info)
    ensures Assembled(out, body, [[], info, []], critical)
    ensures WholeIfItFits(out, [body, [], info, [], critical])
  {
    hide Assembled, WholeIfItFits;
    var pieces := [SlotPiece(Headline, body), SlotPiece(Notices, info), SlotPiece(Critical, critical)];
    ThreePieces(body, critical, info);
    out := Assemble(pieces);
  }

  lemma ThreePieces(body: Str, critical: Str, info: Str)
    ensures var ps := [SlotPiece(Headline, body), SlotPiece(Notices, info), SlotPiece(Critical, critical)];
      && Gathered(ps, Headline) == body && Gathered(ps, Notices) == info
      && Gathered(ps, Critical) == critical
      && Gathered(ps, Diagnostics) == [] && Gathered(ps, Decor) == []
  {
    var h, n, c := SlotPiece(Headline, body), SlotPiece(Notices, info), SlotPiece(Critical, critical);
    assert [h, n, c][..2] == [h, n];
    assert [h, n][..1] == [h];
    assert [h][..0] == [];
    forall slot: Slot ensures Gathered([h, n, c], slot) ==
      (if slot == Headline then body else if slot == Notices then info
       else if slot == Critical then critical else []) {
      assert Gathered([h], slot) == if slot == Headline then body else [];
      assert Gathered([h, n], slot) ==
        if slot == Headline then body else if slot == Notices then info else [];
    }
  }

  /** `attach_notices` (crates/rc-agent/src/engine.rs): nothing to say leaves the body alone. */
  function Attached(body: Str, critical: Str, info: Str): Str {
    if critical == [] && info == [] then body else ResultWithNotices(body, critical, info)
  }

  lemma RenderedConcat(a: seq<Str>, b: seq<Str>)
    ensures Rendered(a + b, 1) == Rendered(a, 1) + Rendered(b, 1 + |a|)
  {
    hide Elided;
  }

  lemma SmallLinesAreVerbatim(lines: seq<Str>, first: nat)
    ensures forall k :: 0 <= k < |lines| && |lines[k]| <= LINE_BUDGET ==> Rendered(lines, first)[k] == lines[k]
  {
  }

  lemma GateOfCriticalTail(before: Str, critical: Str) returns (front: seq<Str>, shown: seq<Str>)
    requires Valid(before + critical) && EndsLine(before)
    requires |before + critical| <= RESPONSE_BUDGET
    ensures Gated(before + critical) == Join(front + shown, [NEWLINE])
    ensures |Gated(before + critical)| <= RESPONSE_BUDGET
    ensures |shown| == |Lines(critical)|
    ensures forall k :: 0 <= k < |shown| && |Lines(critical)[k]| <= LINE_BUDGET ==> shown[k] == Lines(critical)[k]
  {
    hide Elided;
    front := Rendered(Lines(before), 1);
    shown := Rendered(Lines(critical), 1 + |front|);
    SmallLinesAreVerbatim(Lines(critical), 1 + |front|);
    RenderedConcat(Lines(before), Lines(critical));
    LinesAcrossBreak(before, critical);
    GateOfFitting(before + critical);
  }

  lemma FittingIsWhole(body: Str, critical: Str, info: Str, stages: seq<Str>)
    requires Piled(stages, [body, [], info, [], critical]) && stages[0] == []
    requires |stages[5]| + 2 <= RESPONSE_BUDGET
    ensures ResultWithNotices(body, critical, info) == stages[5]
  {
    PackedIsAssembled(body, [[], info, []], critical);
    hide Packed, Assembled, Piled;
    EverythingShown(ResultWithNotices(body, critical, info), body, [[], info, []], critical);
    assert [body] + [[], info, []] + [critical] == [body, [], info, [], critical];
  }

  /** When body, notices and critical text fit and no line of them is over 400 bytes, the answer is
      exactly their lines in that order. */
  lemma FittingAnswerShowsAll(body: Str, critical: Str, info: Str, stages: seq<Str>)
    requires Valid(body) && Valid(critical) && Valid(info)
    requires Piled(stages, [body, [], info, [], critical]) && stages[0] == []
    requires |stages[5]| + 2 <= RESPONSE_BUDGET
    requires forall l :: l in Lines(stages[5]) ==> |l| <= LINE_BUDGET
    ensures ResultWithNotices(body, critical, info) == stages[5]
    ensures Gated(ResultWithNotices(body, critical, info)) == Join(Lines(stages[5]), [NEWLINE])
  {
    ValidAscii([]);
    assert |stages| == 6;
    hide *;
    PiledIsValid(stages, [body, [], info, [], critical], 5);
    FittingIsWhole(body, critical, info, stages);
    GateOfFitting(stages[5]);
    SmallLinesAreVerbatim(Lines(stages[5]), 1);
    assert Rendered(Lines(stages[5]), 1) == Lines(stages[5]);
  }

  lemma {:induction false} PiledIsValid(stages: seq<Str>, texts: seq<Str>, k: nat)
    requires Piled(stages, texts) && stages[0] == [] && k <= |texts|
    requires forall t :: t in texts ==> Valid(t)
    ensures Valid(stages[k])
  {
    hide Valid;
    if k == 0 {
      ValidAscii([]);
    } else {
      PiledIsValid(stages, texts, k - 1);
      var t := texts[k - 1];
      AppendIsGap(stages[k - 1], t);
      BrokenValid(stages[k - 1]);
      ValidConcat(Broken(stages[k - 1]), t);
    }
  }

  /** Whatever the body and the notices, the answer ends with the critical notice, line by
      line and in order; each of its lines of at most 400 bytes is there byte for byte.
      `shown` is that tail and `front` is everything before it. */
  lemma CriticalLinesSurvive(body: Str, critical: Str, info: Str) returns (front: seq<Str>, shown: seq<Str>)
    requires Valid(body) && Valid(critical) && Valid(info)
    requires 0 < |critical| < RESPONSE_BUDGET
    ensures Gated(Attached(body, critical, info)) == Join(front + shown, [NEWLINE])
    ensures |Gated(Attached(body, critical, info))| <= RESPONSE_BUDGET
    ensures |shown| == |Lines(critical)|
    ensures forall k :: 0 <= k < |shown| && |Lines(critical)[k]| <= LINE_BUDGET ==> shown[k] == Lines(critical)[k]
  {
    var parts: seq<Str> := [[], info, []];
    var before := PackedKeepsCritical(body, parts, critical);
    var text := Attached(body, critical, info);
    assert text == before + critical;
    ValidConcat(before, critical);
    front, shown := GateOfCriticalTail(before, critical);
  }
}
