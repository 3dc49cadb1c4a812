/** Slotted assembly and the final gate (crates/rc-core/src/budget.rs), composed the way every
    tool response is. */
module Response {
  import opened Text
  import opened Utf8
  import opened Budget
  import opened Layout

  datatype Slot = Headline | Diagnostics | Critical | Notices | Decor

  datatype SlotPiece = SlotPiece(slot: Slot, text: Str)

  predicate EndsLine(s: Str) {
    s == [] || s[|s| - 1] == NEWLINE
  }

  /** `s` with a line break unless it is empty or already ends in one. */
  function Broken(s: Str): (r: Str)
    ensures EndsLine(r) && s <= r && |r| <= |s| + 1
  {
    if EndsLine(s) then s else s + [NEWLINE]
  }

  function Append(dest: Str, text: Str): Str {
    Broken(dest) + text
  }

  /** Everything the pieces put into one slot. */
  function Gathered(pieces: seq<SlotPiece>, slot: Slot): Str {
    if pieces == [] then []
    else
      var before := Gathered(pieces[..|pieces| - 1], slot);
      var p := pieces[|pieces| - 1];
      if p.slot == slot then Append(before, p.text) else before
  }

  /** The middle slots, packed into what headline and critical leave. */
  function Filled(parts: seq<Str>, mid: Str, room: nat, fixed: nat): Str
    decreases |parts|
  {
    if parts == [] || (parts[0] != [] && room == 0) then mid
    else
      var chunk := Truncated(parts[0], room);
      if chunk == [] then Filled(parts[1..], mid, room, fixed)
      else
        var mid' := Append(mid, chunk);
        Filled(parts[1..], mid', SatSub(RESPONSE_BUDGET, fixed + |mid'| + 2), fixed)
  }

  function Middle(headline: Str, parts: seq<Str>, critical: Str): Str {
    var reserved := |headline| + (if critical == [] then 0 else |critical| + 1);
    Filled(parts, [], SatSub(RESPONSE_BUDGET, reserved), |headline| + |critical|)
  }

  /** The headline and the middle slots. */
  function Body(headline: Str, parts: seq<Str>, critical: Str): (r: Str)
    ensures headline <= r
  {
    var mid := Middle(headline, parts, critical);
    if mid == [] then headline else Append(headline, mid)
  }

  function Packed(headline: Str, parts: seq<Str>, critical: Str): (r: Str)
    ensures |r| <= RESPONSE_BUDGET
  {
    Packing(Body(headline, parts, critical), critical)
  }

  /** The critical text after the rest, within the budget. */
  function Packing(body: Str, critical: Str): (r: Str)
    ensures |r| <= RESPONSE_BUDGET
  {
    Truncated(if critical == [] then body else WithCritical(Broken(body), critical), RESPONSE_BUDGET)
  }

  /** Append the critical text, clipping what comes before it when there is no room. */
  function WithCritical(out: Str, critical: Str): Str {
    if |critical| <= SatSub(RESPONSE_BUDGET, |out|) then out + critical
    else
      var head := Truncated(out, SatSub(RESPONSE_BUDGET, |critical| + 1));
      Truncated(head + [NEWLINE] + critical, RESPONSE_BUDGET)
  }

  // ---- the buffers and the answer, said of themselves ----

  /** Each piece of the slot goes on a line of its own; the other pieces change nothing. */
  ghost predicate Collected(stages: seq<Str>, pieces: seq<SlotPiece>, slot: Slot) {
    && |stages| == |pieces| + 1 && stages[0] == []
    && forall i {:trigger pieces[i]} :: 0 <= i < |pieces| ==>
      stages[i + 1] == if pieces[i].slot == slot then stages[i] + Gap(stages[i]) + pieces[i].text else stages[i]
  }

  ghost predicate Buffered(text: Str, pieces: seq<SlotPiece>, slot: Slot) {
    exists stages :: Collected(stages, pieces, slot) && text == stages[|pieces|]
  }

  lemma AppendIsGap(dest: Str, text: Str)
    ensures Append(dest, text) == dest + Gap(dest) + text
    ensures Broken(dest) == dest + Gap(dest)
  {
  }

  lemma CollectedNext(stages: seq<Str>, pieces: seq<SlotPiece>, slot: Slot, top: Str)
    requires pieces != [] && Collected(stages, pieces[..|pieces| - 1], slot)
    requires var p := pieces[|pieces| - 1];
      top == if p.slot == slot then stages[|pieces| - 1] + Gap(stages[|pieces| - 1]) + p.text else stages[|pieces| - 1]
    ensures Collected(stages + [top], pieces, slot)
  {
    hide Gap;
    var before := pieces[..|pieces| - 1];
    assert forall i :: 0 <= i < |before| ==> before[i] == pieces[i];
  }

  lemma {:induction false} GatheredIsBuffered(pieces: seq<SlotPiece>, slot: Slot) returns (stages: seq<Str>)
    ensures Collected(stages, pieces, slot) && Gathered(pieces, slot) == stages[|pieces|]
    ensures Buffered(Gathered(pieces, slot), pieces, slot)
  {
    hide Append, Gap;
    if pieces == [] {
      stages := [[]];
    } else {
      var before := pieces[..|pieces| - 1];
      stages := GatheredIsBuffered(before, slot);
      var all := stages + [Gathered(pieces, slot)];
      AppendIsGap(stages[|before|], pieces[|before|].text);
      CollectedNext(stages, pieces, slot, Gathered(pieces, slot));
      hide Collected, Gathered;
      stages := all;
    }
  }

  lemma TruncatedIsClipped(s: Str, max: nat)
    ensures Clipped(Truncated(s, max), s, max)
  {
  }

  lemma ShownOnTop(chunks: seq<Str>, stages: seq<Str>, parts: seq<Str>, headline: Str, critical: Str, chunk: Str,
                   mid: Str)
    requires parts != [] && Shown(chunks, stages, parts[1..], headline, critical)
    requires Clipped(chunk, parts[0], Room(headline, mid, critical))
    requires stages[0] == (if chunk == [] then mid else mid + Gap(mid) + chunk)
    ensures Shown([chunk] + chunks, [mid] + stages, parts, headline, critical)
  {
    hide Clipped, Room, Gap;
    var all, piles := [chunk] + chunks, [mid] + stages;
    forall i | 0 <= i < |parts|
      ensures Clipped(all[i], parts[i], Room(headline, piles[i], critical))
      ensures piles[i + 1] == if all[i] == [] then piles[i] else piles[i] + Gap(piles[i]) + all[i] {
      if i > 0 {
        assert parts[1..][i - 1] == parts[i] && chunks[i - 1] == all[i];
      }
    }
  }

  lemma NothingMoreFits(parts: seq<Str>, mid: Str, headline: Str, critical: Str)
    returns (chunks: seq<Str>, stages: seq<Str>)
    requires Room(headline, mid, critical) == 0
    ensures Shown(chunks, stages, parts, headline, critical) && stages[0] == stages[|parts|] == mid
  {
    chunks, stages := seq(|parts|, _ => []), seq(|parts| + 1, _ => mid);
  }

  /** The packing loop shows each middle slot as far as its room goes. */
  lemma {:induction false} FilledIsShown(parts: seq<Str>, mid: Str, headline: Str, critical: Str)
    returns (chunks: seq<Str>, stages: seq<Str>)
    ensures Shown(chunks, stages, parts, headline, critical) && stages[0] == mid
    ensures Filled(parts, mid, Room(headline, mid, critical), |headline| + |critical|) == stages[|parts|]
    decreases |parts|
  {
    hide Truncated, Append, Shown, Clipped, Gap;
    var room, fixed := Room(headline, mid, critical), |headline| + |critical|;
    if parts == [] || (parts[0] != [] && room == 0) {
      if parts == [] {
        chunks, stages := NothingLeft(mid, headline, critical);
      } else {
        chunks, stages := NothingMoreFits(parts, mid, headline, critical);
      }
    } else {
      var chunk := Truncated(parts[0], room);
      TruncatedIsClipped(parts[0], room);
      var mid' := if chunk == [] then mid else Append(mid, chunk);
      AppendIsGap(mid, chunk);
      chunks, stages := FilledIsShown(parts[1..], mid', headline, critical);
      ShownOnTop(chunks, stages, parts, headline, critical, chunk, mid);
      ShownSizes(chunks, stages, parts[1..], headline, critical);
      chunks, stages := [chunk] + chunks, [mid] + stages;
    }
  }

  lemma NothingLeft(mid: Str, headline: Str, critical: Str) returns (chunks: seq<Str>, stages: seq<Str>)
    ensures Shown(chunks, stages, [], headline, critical) && stages == [mid]
  {
    chunks, stages := [], [mid];
  }

  lemma ShownSizes(chunks: seq<Str>, stages: seq<Str>, parts: seq<Str>, headline: Str, critical: Str)
    requires Shown(chunks, stages, parts, headline, critical)
    ensures |stages| == |parts| + 1
  {
  }

  lemma WithCriticalCuts(before: Str, critical: Str)
    requires critical != [] && |before| + |critical| > 8192
    ensures Squeezed(WithCritical(before, critical), before, critical)
  {
    hide Truncated, Clipped;
    var head := Truncated(before, SatSub(RESPONSE_BUDGET, |critical| + 1));
    TruncatedIsClipped(before, SatSub(RESPONSE_BUDGET, |critical| + 1));
    TruncatedIsClipped(head + [NEWLINE] + critical, RESPONSE_BUDGET);
  }

  lemma WithCriticalCloses(body: Str, critical: Str)
    ensures Closed(Packing(body, critical), body, critical)
  {
    AppendIsGap(body, []);
    hide Truncated, Squeezed, Gap, Broken;
    TruncatedIsClipped(body, RESPONSE_BUDGET);
    if critical != [] && |Broken(body)| + |critical| > 8192 {
      WithCriticalCuts(Broken(body), critical);
    }
  }

  /** The packed answer, in terms of what is in it. */
  lemma PackedIsAssembled(headline: Str, parts: seq<Str>, critical: Str)
    ensures Assembled(Packed(headline, parts, critical), headline, parts, critical)
  {
    var chunks, stages := FilledIsShown(parts, [], headline, critical);
    assert Middle(headline, parts, critical) == stages[|parts|];
    AppendIsGap(headline, stages[|parts|]);
    assert Followed(headline, stages[|parts|]) == Body(headline, parts, critical);
    WithCriticalCloses(Body(headline, parts, critical), critical);
  }

  method Gather(pieces: seq<SlotPiece>)
    returns (headline: Str, critical: Str, diags: Str, notices: Str, decor: Str)
    ensures headline == Gathered(pieces, Headline) && critical == Gathered(pieces, Critical)
    ensures diags == Gathered(pieces, Diagnostics) && notices == Gathered(pieces, Notices)
    ensures decor == Gathered(pieces, Decor)
  {
    headline, critical, diags, notices, decor := [], [], [], [], [];
    for i := 0 to |pieces|
      invariant headline == Gathered(pieces[..i], Headline)
      invariant critical == Gathered(pieces[..i], Critical)
      invariant diags == Gathered(pieces[..i], Diagnostics)
      invariant notices == Gathered(pieces[..i], Notices)
      invariant decor == Gathered(pieces[..i], Decor)
    {
      var p := pieces[i];
      assert pieces[..i + 1][..i] == pieces[..i];
      match p.slot {
        case Headline => headline := Append(headline, p.text);
        case Critical => critical := Append(critical, p.text);
        case Diagnostics => diags := Append(diags, p.text);
        case Notices => notices := Append(notices, p.text);
        case Decor => decor := Append(decor, p.text);
      }
    }
    assert pieces[..|pieces|] == pieces;
  }

  lemma MiddleIsShown(parts: seq<Str>, headline: Str, critical: Str)
    ensures exists chunks, stages ::
      Shown(chunks, stages, parts, headline, critical) && stages[0] == [] &&
      Middle(headline, parts, critical) == stages[|parts|]
  {
    var chunks, stages := FilledIsShown(parts, [], headline, critical);
  }

  method FillMiddle(parts: seq<Str>, headline: Str, critical: Str) returns (mid: Str)
    ensures mid == Middle(headline, parts, critical)
    ensures exists chunks, stages ::
      Shown(chunks, stages, parts, headline, critical) && stages[0] == [] && mid == stages[|parts|]
  {
    MiddleIsShown(parts, headline, critical);
    hide Truncated, Append, Shown;
    var reserved := |headline| + (if critical == [] then 0 else |critical| + 1);
    var midBudget := SatSub(RESPONSE_BUDGET, reserved);
    mid := [];
    var i := 0;
    ghost var all := Filled(parts, [], midBudget, |headline| + |critical|);
    while i < |parts|
      invariant i <= |parts|
      invariant Filled(parts[i..], mid, midBudget, |headline| + |critical|) == all
    {
      var part := parts[i];
      assert parts[i..][1..] == parts[i + 1..];
      i := i + 1;
      if part == [] {
        continue;
      }
      if midBudget == 0 {
        break;
      }
      var chunk := TruncateBytes(part, midBudget);
      if chunk == [] {
        continue;
      }
      mid := Append(mid, chunk);
      midBudget := SatSub(RESPONSE_BUDGET, |headline| + |mid| + |critical| + 2);
    }
  }

  /** The last slot, with its emergency clip. */
  method EmitCritical(before: Str, critical: Str) returns (out: Str)
    ensures out == WithCritical(before, critical)
    ensures critical == [] || |before| + |critical| <= 8192 ==> out == before + critical
    ensures critical != [] && |before| + |critical| > 8192 ==> Squeezed(out, before, critical)
  {
    if critical != [] && |before| + |critical| > 8192 {
      WithCriticalCuts(before, critical);
    }
    hide Truncated, Squeezed;
    var room := SatSub(RESPONSE_BUDGET, |before|);
    if |critical| <= room {
      out := before + critical;
    } else {
      var keepHead := TruncateBytes(before, SatSub(RESPONSE_BUDGET, |critical| + 1));
      out := keepHead + [NEWLINE] + critical;
      if |out| > RESPONSE_BUDGET {
        out := TruncateBytes(out, RESPONSE_BUDGET);
      }
    }
  }

  lemma AssembledFromPieces(pieces: seq<SlotPiece>)
    ensures forall slot :: Buffered(Gathered(pieces, slot), pieces, slot)
    ensures var headline, critical := Gathered(pieces, Headline), Gathered(pieces, Critical);
      var parts := [Gathered(pieces, Diagnostics), Gathered(pieces, Notices), Gathered(pieces, Decor)];
      var out := Packed(headline, parts, critical);
      && Assembled(out, headline, parts, critical)
      && WholeIfItFits(out, [headline, parts[0], parts[1], parts[2], critical])
  {
    hide *;
    forall slot ensures Buffered(Gathered(pieces, slot), pieces, slot) {
      var stages := GatheredIsBuffered(pieces, slot);
    }
    var headline, critical := Gathered(pieces, Headline), Gathered(pieces, Critical);
    var parts := [Gathered(pieces, Diagnostics), Gathered(pieces, Notices), Gathered(pieces, Decor)];
    PackedIsAssembled(headline, parts, critical);
    EverythingShown(Packed(headline, parts, critical), headline, parts, critical);
    assert [headline] + parts + [critical] == [headline, parts[0], parts[1], parts[2], critical];
  }

  /** `assemble`: headline, then as much of the middle as fits, then critical. */
  method Assemble(pieces: seq<SlotPiece>) returns (out: Str)
    ensures out == Packed(Gathered(pieces, Headline),
      [Gathered(pieces, Diagnostics), Gathered(pieces, Notices), Gathered(pieces, Decor)],
      Gathered(pieces, Critical))
    ensures |out| <= RESPONSE_BUDGET
    ensures forall slot :: Buffered(Gathered(pieces, slot), pieces, slot)
    ensures Assembled(out, Gathered(pieces, Headline),
      [Gathered(pieces, Diagnostics), Gathered(pieces, Notices), Gathered(pieces, Decor)],
      Gathered(pieces, Critical))
    ensures WholeIfItFits(out,
      [Gathered(pieces, Headline), Gathered(pieces, Diagnostics), Gathered(pieces, Notices), Gathered(pieces, Decor),
       Gathered(pieces, Critical)])
  {
    AssembledFromPieces(pieces);
    hide Buffered, Assembled, WholeIfItFits;
    var headline, critical, diags, notices, decor := Gather(pieces);
    var mid := FillMiddle([diags, notices, decor], headline, critical);
    out := headline;
    if mid != [] {
      out := Append(out, mid);
    }
    if critical != [] {
      out := EmitCritical(Broken(out), critical);
    }
    if |out| > RESPONSE_BUDGET {
      out := TruncateBytes(out, RESPONSE_BUDGET);
    }
  }

  // ---- what assembly guarantees ----

  lemma TruncatedValid(s: Str, max: nat)
    requires Valid(s)
    ensures Valid(Truncated(s, max))
  {
    ValidSplit(s, Floor(s, max));
  }

  lemma BrokenValid(s: Str)
    requires Valid(s)
    ensures Valid(Broken(s))
  {
    ValidAscii([NEWLINE]);
    ValidConcat(s, [NEWLINE]);
  }

  lemma {:induction false} FilledValid(parts: seq<Str>, mid: Str, room: nat, fixed: nat)
    requires Valid(mid) && forall p :: p in parts ==> Valid(p)
    ensures Valid(Filled(parts, mid, room, fixed))
    decreases |parts|
  {
    if parts != [] && (parts[0] == [] || room > 0) {
      assert forall p :: p in parts[1..] ==> p in parts;
      var chunk := Truncated(parts[0], room);
      TruncatedValid(parts[0], room);
      if chunk == [] {
        FilledValid(parts[1..], mid, room, fixed);
      } else {
        BrokenValid(mid);
        ValidConcat(Broken(mid), chunk);
        FilledValid(parts[1..], Append(mid, chunk), SatSub(RESPONSE_BUDGET, fixed + |Append(mid, chunk)| + 2), fixed);
      }
    }
  }

  lemma BodyValid(headline: Str, parts: seq<Str>, critical: Str)
    requires Valid(headline) && forall p :: p in parts ==> Valid(p)
    ensures Valid(Broken(Body(headline, parts, critical)))
    ensures Valid(Body(headline, parts, critical))
  {
    var reserved := |headline| + (if critical == [] then 0 else |critical| + 1);
    FilledValid(parts, [], SatSub(RESPONSE_BUDGET, reserved), |headline| + |critical|);
    BrokenValid(headline);
    ValidConcat(Broken(headline), Middle(headline, parts, critical));
    BrokenValid(Body(headline, parts, critical));
  }

  /** What `WithCritical` puts before the critical text. */
  function Lead(out: Str, critical: Str): (r: Str)
    requires EndsLine(out)
    ensures EndsLine(r)
  {
    if |critical| <= SatSub(RESPONSE_BUDGET, |out|) then out
    else Truncated(out, SatSub(RESPONSE_BUDGET, |critical| + 1)) + [NEWLINE]
  }

  lemma LeadValid(out: Str, critical: Str)
    requires Valid(out) && EndsLine(out)
    ensures Valid(Lead(out, critical))
  {
    var max := SatSub(RESPONSE_BUDGET, |critical| + 1);
    TruncatedValid(out, max);
    ValidAscii([NEWLINE]);
    ValidConcat(Truncated(out, max), [NEWLINE]);
  }

  lemma LeadThenCritical(out: Str, critical: Str)
    requires EndsLine(out) && 0 < |critical| < RESPONSE_BUDGET
    ensures WithCritical(out, critical) == Lead(out, critical) + critical
    ensures |Lead(out, critical) + critical| <= RESPONSE_BUDGET
  {
  }

  /** Critical text of at most 8191 bytes is the tail of the answer, on lines of its own. */
  lemma PackedKeepsCritical(headline: Str, parts: seq<Str>, critical: Str) returns (before: Str)
    requires Valid(headline) && forall p :: p in parts ==> Valid(p)
    requires 0 < |critical| < RESPONSE_BUDGET
    ensures Packed(headline, parts, critical) == before + critical
    ensures EndsLine(before) && Valid(before)
    ensures |before + critical| <= RESPONSE_BUDGET
  {
    var body := Broken(Body(headline, parts, critical));
    BodyValid(headline, parts, critical);
    LeadValid(body, critical);
    LeadThenCritical(body, critical);
    before := Lead(body, critical);
  }

  /** A boundary at `k <= max` survives rounding `max` down. */
  lemma FloorAbove(s: Str, k: nat, max: nat)
    requires k <= max && k <= |s| && IsBoundary(s, k)
    ensures Floor(s, max) >= k
  {
    assert Floor(s, max) < k ==> !IsBoundary(s, k);
  }

  lemma PrefixBoundary(a: Str, s: Str)
    requires Valid(s) && Valid(a) && a <= s
    ensures IsBoundary(s, |a|)
  {
    if |a| < |s| {
      BoundaryAfterPrefix(a, s);
    }
  }

  lemma {:induction false} BoundaryAfterPrefix(a: Str, s: Str)
    requires Valid(s) && Valid(a) && a <= s && |a| < |s|
    ensures !IsCont(s[|a|])
  {
    if a != [] {
      var w := Width(a[0]);
      assert a[0] == s[0];
      BoundaryAfterPrefix(a[w..], s[w..]);
    }
  }

  lemma HeadlineSurvives(headline: Str, out: Str, max: nat)
    requires Valid(headline) && Valid(out) && headline <= out && |headline| <= max
    ensures headline <= Truncated(out, max)
  {
    PrefixBoundary(headline, out);
    FloorAbove(out, |headline|, max);
  }

  lemma BodyStartsWithHeadline(headline: Str, parts: seq<Str>, critical: Str)
    ensures headline <= Body(headline, parts, critical) <= Broken(Body(headline, parts, critical))
  {
    hide Middle;
  }

  lemma PackedAlone(headline: Str, parts: seq<Str>)
    ensures Packed(headline, parts, []) == Truncated(Body(headline, parts, []), RESPONSE_BUDGET)
  {
    hide Truncated, Body;
  }

  lemma PackedWithCritical(headline: Str, parts: seq<Str>, critical: Str)
    requires 0 < |critical| < RESPONSE_BUDGET
    ensures Packed(headline, parts, critical) == Lead(Broken(Body(headline, parts, critical)), critical) + critical
  {
    hide Body, Lead, WithCritical;
    LeadThenCritical(Broken(Body(headline, parts, critical)), critical);
  }

  lemma HeadlineLeads(headline: Str, out: Str, critical: Str)
    requires Valid(headline) && Valid(out) && EndsLine(out) && headline <= out
    requires |headline| + 1 + |critical| <= RESPONSE_BUDGET
    ensures headline <= Lead(out, critical)
  {
    HeadlineSurvives(headline, out, RESPONSE_BUDGET - (|critical| + 1));
  }

  /** The headline stays whole whenever it and the critical text fit side by side, even
      where packing overshoots and the emergency clip runs. */
  lemma PackedKeepsHeadline(headline: Str, parts: seq<Str>, critical: Str)
    requires Valid(headline) && forall p :: p in parts ==> Valid(p)
    requires |headline| + 1 + |critical| <= RESPONSE_BUDGET
    ensures headline <= Packed(headline, parts, critical)
  {
    var body := Body(headline, parts, critical);
    BodyValid(headline, parts, critical);
    BodyStartsWithHeadline(headline, parts, critical);
    hide Valid, Body, Truncated, Packed, Lead, WithCritical;
    if critical == [] {
      HeadlineSurvives(headline, body, RESPONSE_BUDGET);
      PackedAlone(headline, parts);
    } else {
      HeadlineLeads(headline, Broken(body), critical);
      PackedWithCritical(headline, parts, critical);
    }
  }
}
