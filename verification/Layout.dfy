/** What an assembled answer looks like (crates/rc-core/src/budget.rs), said of the answer itself:
    which texts it holds, in which order, and where one of them may be cut. */
module Layout {
  import opened Text
  import opened Utf8
  import opened Budget

  /** The line break `text` needs before anything may follow it. */
  ghost function Gap(text: Str): Str {
    if text == [] || text[|text| - 1] == NEWLINE then [] else [NEWLINE]
  }

  /** Each stage adds the next text, on a line of its own; empty texts add nothing. */
  ghost predicate Piled(stages: seq<Str>, texts: seq<Str>) {
    && |stages| == |texts| + 1
    && forall i {:trigger texts[i]} :: 0 <= i < |texts| ==>
      stages[i + 1] == if texts[i] == [] then stages[i] else stages[i] + Gap(stages[i]) + texts[i]
  }

  /** All of `s` when it fits, and otherwise its longest prefix of whole characters that does. */
  ghost predicate Clipped(r: Str, s: Str, max: nat) {
    && r <= s && |r| <= max
    && (|s| <= max ==> r == s)
    && (max < |s| ==> IsBoundary(s, |r|) && forall j :: |r| < j <= max ==> !IsBoundary(s, j))
  }

  /** The bytes left for the next middle slot once `mid` is there. */
  ghost function Room(headline: Str, mid: Str, critical: Str): nat {
    var taken := |headline| + |critical| + (if mid != [] then |mid| + 2 else if critical != [] then 1 else 0);
    if taken <= 8192 then 8192 - taken else 0
  }

  /** The middle slots one after the other, each cut only where its room ends. */
  ghost predicate Shown(chunks: seq<Str>, stages: seq<Str>, parts: seq<Str>, headline: Str, critical: Str) {
    && |chunks| == |parts|
    && Piled(stages, chunks)
    && forall i {:trigger chunks[i]} :: 0 <= i < |parts| ==>
      Clipped(chunks[i], parts[i], Room(headline, stages[i], critical))
  }

  ghost function Followed(headline: Str, mid: Str): Str {
    if mid == [] then headline else headline + Gap(headline) + mid
  }

  /** The emergency: what precedes the critical text is cut to the bytes it leaves. */
  ghost predicate Squeezed(out: Str, before: Str, critical: Str) {
    exists head :: Clipped(head, before, if |critical| < 8192 then 8191 - |critical| else 0) &&
      Clipped(out, head + [NEWLINE] + critical, 8192)
  }

  /** The critical text comes last, whole where it fits. */
  ghost predicate Closed(out: Str, body: Str, critical: Str) {
    var lead := body + Gap(body);
    if critical == [] then Clipped(out, body, 8192)
    else if |lead| + |critical| <= 8192 then out == lead + critical
    else Squeezed(out, lead, critical)
  }

  ghost predicate Assembled(out: Str, headline: Str, parts: seq<Str>, critical: Str) {
    exists chunks, stages :: Shown(chunks, stages, parts, headline, critical) && stages[0] == [] &&
      Closed(out, Followed(headline, stages[|parts|]), critical)
  }

  /** `out` is all the texts, whenever they fit with their breaks and two bytes to spare. */
  ghost predicate WholeIfItFits(out: Str, texts: seq<Str>) {
    forall stages :: Piled(stages, texts) && stages[0] == [] && |stages[|texts|]| + 2 <= 8192 ==>
      out == stages[|texts|]
  }

  // ---- everything is shown when it fits ----

  lemma {:induction false} PileExists(texts: seq<Str>) returns (stages: seq<Str>)
    ensures Piled(stages, texts) && stages[0] == []
  {
    if texts == [] {
      stages := [[]];
    } else {
      var last := texts[|texts| - 1];
      var before := texts[..|texts| - 1];
      stages := PileExists(before);
      var top := stages[|before|];
      stages := stages + [if last == [] then top else top + Gap(top) + last];
      forall i | 0 <= i < |texts|
        ensures stages[i + 1] == if texts[i] == [] then stages[i] else stages[i] + Gap(stages[i]) + texts[i] {
        if i < |before| { assert before[i] == texts[i]; }
      }
    }
  }

  lemma {:induction false} PilesGrow(stages: seq<Str>, texts: seq<Str>, i: nat, j: nat)
    requires Piled(stages, texts) && i <= j <= |texts|
    ensures |stages[i]| <= |stages[j]|
    decreases j - i
  {
    if i < j {
      assert texts[i] == texts[i];
      PilesGrow(stages, texts, i + 1, j);
    }
  }

  lemma FollowedStep(headline: Str, mid: Str, text: Str)
    requires text != []
    ensures var body := Followed(headline, mid);
      Followed(headline, mid + Gap(mid) + text) == body + Gap(body) + text
  {
    if mid != [] {
      var body := Followed(headline, mid);
      assert body[|body| - 1] == mid[|mid| - 1];
    }
  }

  /** As long as everything fits, the middle slots lie after the headline uncut. */
  lemma {:induction false} NothingCut(chunks: seq<Str>, stages: seq<Str>, parts: seq<Str>, headline: Str,
                                      critical: Str, all: seq<Str>, k: nat)
    requires Shown(chunks, stages, parts, headline, critical) && stages[0] == []
    requires Piled(all, [headline] + parts + [critical]) && all[0] == []
    requires |all[|parts| + 2]| + 2 <= 8192
    requires k <= |parts|
    ensures Followed(headline, stages[k]) == all[k + 1]
    ensures |headline| + |stages[k]| <= |all[k + 1]|
  {
    var texts := [headline] + parts + [critical];
    if k == 0 {
      assert texts[0] == headline;
    } else {
      var i := k - 1;
      NothingCut(chunks, stages, parts, headline, critical, all, i);
      assert texts[i + 1] == parts[i];
      assert texts[|parts| + 1] == critical;
      PilesGrow(all, texts, i + 2, |parts| + 1);
      assert |all[i + 2]| + |critical| <= |all[|parts| + 2]|;
      assert |all[i + 1]| + |parts[i]| <= |all[i + 2]|;
      assert Clipped(chunks[i], parts[i], Room(headline, stages[i], critical));
      if parts[i] != [] {
        FollowedStep(headline, stages[i], parts[i]);
      }
    }
  }

  /** Headline, middle slots and critical text, all of them and in this order. */
  lemma EverythingShown(out: Str, headline: Str, parts: seq<Str>, critical: Str)
    requires Assembled(out, headline, parts, critical)
    ensures WholeIfItFits(out, [headline] + parts + [critical])
  {
    var texts := [headline] + parts + [critical];
    var chunks, stages :| Shown(chunks, stages, parts, headline, critical) && stages[0] == [] &&
      Closed(out, Followed(headline, stages[|parts|]), critical);
    forall all | Piled(all, texts) && all[0] == [] && |all[|texts|]| + 2 <= 8192 ensures out == all[|texts|] {
      NothingCut(chunks, stages, parts, headline, critical, all, |parts|);
      assert texts[|parts| + 1] == critical;
      assert Piled(all, texts);
    }
  }
}
