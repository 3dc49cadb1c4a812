/** Which notices are spoken, and what is remembered of them (crates/rc-core/src/notice.rs). */
module Notices {
  import opened Text

  datatype Severity = Info | Warning | Critical

  datatype Notice = Notice(category: Str, severity: Severity, text: Str, compact: Str, identity: Str)

  datatype NoticeKey = NoticeKey(project: Str, worktree: Str, category: Str)

  type Memory = map<NoticeKey, Str>

  /** Identity of the last notice of a category. */
  function LastIdentity(notices: seq<Notice>, category: Str): Option<Str> {
    if notices == [] then None
    else
      var n := |notices| - 1;
      if notices[n].category == category then Some(notices[n].identity) else LastIdentity(notices[..n], category)
  }

  function Remembered(last: Memory, project: Str, worktree: Str, category: Str): Option<Str> {
    var key := NoticeKey(project, worktree, category);
    if key in last then Some(last[key]) else None
  }

  /** What is known of a category when the `i`-th notice comes up: an earlier notice of the same
      snapshot, or what was remembered. */
  function Known(last: Memory, project: Str, worktree: Str, snapshot: seq<Notice>, i: nat, category: Str): Option<Str>
    requires i <= |snapshot|
  {
    var here := LastIdentity(snapshot[..i], category);
    if here.Some? then here else Remembered(last, project, worktree, category)
  }

  /** Full text for what is new or has changed; unchanged, a critical notice is repeated in short
      and any other stays silent. */
  function Said(known: Option<Str>, n: Notice): Option<Str> {
    if known != Some(n.identity) then Some(n.text)
    else if n.severity.Critical? then Some(n.compact)
    else None
  }

  function SaidUpTo(last: Memory, project: Str, worktree: Str, snapshot: seq<Notice>, i: nat): seq<Str>
    requires i <= |snapshot|
  {
    if i == 0 then []
    else
      var n := snapshot[i - 1];
      var said := Said(Known(last, project, worktree, snapshot, i - 1, n.category), n);
      SaidUpTo(last, project, worktree, snapshot, i - 1) + (if said.Some? then [said.value] else [])
  }

  /** The memory after a snapshot: for its worktree exactly the snapshot, elsewhere as before. */
  ghost predicate Follows(last: Memory, project: Str, worktree: Str, snapshot: seq<Notice>, next: Memory) {
    forall k: NoticeKey :: Remembered(next, k.project, k.worktree, k.category) ==
      if k.project == project && k.worktree == worktree then LastIdentity(snapshot, k.category)
      else Remembered(last, k.project, k.worktree, k.category)
  }

  // ---- what is said and remembered, of the snapshot itself ----

  /** The last of the first `n` notices with this category. */
  ghost predicate LastOf(snapshot: seq<Notice>, n: nat, category: Str, j: nat)
    requires n <= |snapshot|
  {
    && j < n && snapshot[j].category == category
    && forall k :: j < k < n ==> snapshot[k].category != category
  }

  /** The identity of the `i`-th notice is the one its category had: in the last earlier notice of the
      snapshot, or if there is none, when this worktree was last presented. */
  ghost predicate Heard(last: Memory, project: Str, worktree: Str, snapshot: seq<Notice>, i: nat)
    requires i < |snapshot|
  {
    var n, key := snapshot[i], NoticeKey(project, worktree, snapshot[i].category);
    && (forall j: nat :: LastOf(snapshot, i, n.category, j) ==> snapshot[j].identity == n.identity)
    && ((forall j :: 0 <= j < i ==> snapshot[j].category != n.category) ==> key in last && last[key] == n.identity)
  }

  /** What is spoken, in order: the notices not heard in full, the critical ones heard in short. */
  ghost predicate Speaks(out: seq<Str>, last: Memory, project: Str, worktree: Str, snapshot: seq<Notice>,
                         at: seq<nat>) {
    SpeaksOf(out, last, project, worktree, snapshot, at, |snapshot|)
  }

  ghost predicate SpeaksOf(out: seq<Str>, last: Memory, project: Str, worktree: Str, snapshot: seq<Notice>,
                           at: seq<nat>, n: nat)
    requires n <= |snapshot|
  {
    && |at| == |out|
    && (forall k :: 0 <= k < |at| ==> at[k] < n && out[k] == Wording(last, project, worktree, snapshot, at[k]))
    && (forall j, k :: 0 <= j < k < |at| ==> at[j] < at[k])
    && forall i: nat :: i < n ==>
      (i in at <==> !Heard(last, project, worktree, snapshot, i) || snapshot[i].severity.Critical?)
  }

  ghost function Wording(last: Memory, project: Str, worktree: Str, snapshot: seq<Notice>, i: nat): Str
    requires i < |snapshot|
  {
    if Heard(last, project, worktree, snapshot, i) then snapshot[i].compact else snapshot[i].text
  }

  /** For its worktree the memory holds the last identity of each category of the snapshot and nothing
      else; elsewhere it is what it was. */
  ghost predicate Remembers(next: Memory, last: Memory, project: Str, worktree: Str, snapshot: seq<Notice>) {
    && (forall c, j: nat :: LastOf(snapshot, |snapshot|, c, j) ==>
        NoticeKey(project, worktree, c) in next && next[NoticeKey(project, worktree, c)] == snapshot[j].identity)
    && (forall c :: (forall j :: 0 <= j < |snapshot| ==> snapshot[j].category != c) ==>
        NoticeKey(project, worktree, c) !in next)
    && forall k: NoticeKey :: k.project != project || k.worktree != worktree ==>
      (k in next <==> k in last) && (k in last ==> next[k] == last[k])
  }

  lemma {:induction false} LastIdentityIs(snapshot: seq<Notice>, n: nat, category: Str)
    requires n <= |snapshot|
    ensures forall j: nat :: LastOf(snapshot, n, category, j) ==>
      LastIdentity(snapshot[..n], category) == Some(snapshot[j].identity)
    ensures (forall j :: 0 <= j < n ==> snapshot[j].category != category) ==>
      LastIdentity(snapshot[..n], category) == None
    ensures LastIdentity(snapshot[..n], category).Some? ==> exists j: nat :: LastOf(snapshot, n, category, j)
    ensures LastIdentity(snapshot[..n], category).None? ==> forall j :: 0 <= j < n ==> snapshot[j].category != category
  {
    if n > 0 {
      var m := n - 1;
      assert snapshot[..n][..m] == snapshot[..m];
      LastIdentityIs(snapshot, m, category);
      if snapshot[m].category == category {
        assert LastOf(snapshot, n, category, m);
      } else {
        assert forall j: nat :: LastOf(snapshot, n, category, j) <==> LastOf(snapshot, m, category, j);
      }
    }
  }

  lemma HeardIsKnown(last: Memory, project: Str, worktree: Str, snapshot: seq<Notice>, i: nat)
    requires i < |snapshot|
    ensures Heard(last, project, worktree, snapshot, i) <==>
      Known(last, project, worktree, snapshot, i, snapshot[i].category) == Some(snapshot[i].identity)
  {
    var category := snapshot[i].category;
    LastIdentityIs(snapshot, i, category);
    hide LastIdentity;
    if LastIdentity(snapshot[..i], category).Some? {
      var j: nat :| LastOf(snapshot, i, category, j);
    }
  }

  lemma SpeaksNext(out: seq<Str>, last: Memory, project: Str, worktree: Str, snapshot: seq<Notice>, at: seq<nat>,
                   n: nat)
    requires n < |snapshot| && SpeaksOf(out, last, project, worktree, snapshot, at, n)
    ensures var spoken := !Heard(last, project, worktree, snapshot, n) || snapshot[n].severity.Critical?;
      var text := Wording(last, project, worktree, snapshot, n);
      if spoken then SpeaksOf(out + [text], last, project, worktree, snapshot, at + [n], n + 1)
      else SpeaksOf(out, last, project, worktree, snapshot, at, n + 1)
  {
    hide Heard, Wording;
    assert forall i :: i in at ==> i < n;
    assert forall k :: 0 <= k < |at| ==> at[k] in at;
  }

  lemma SaidNext(last: Memory, project: Str, worktree: Str, snapshot: seq<Notice>, n: nat)
    requires n < |snapshot|
    ensures var before := SaidUpTo(last, project, worktree, snapshot, n);
      SaidUpTo(last, project, worktree, snapshot, n + 1) ==
        if !Heard(last, project, worktree, snapshot, n) || snapshot[n].severity.Critical?
        then before + [Wording(last, project, worktree, snapshot, n)] else before
  {
    hide Heard, Known;
    HeardIsKnown(last, project, worktree, snapshot, n);
  }

  lemma {:induction false} SaidSpeaksOf(last: Memory, project: Str, worktree: Str, snapshot: seq<Notice>, n: nat)
    returns (at: seq<nat>)
    requires n <= |snapshot|
    ensures SpeaksOf(SaidUpTo(last, project, worktree, snapshot, n), last, project, worktree, snapshot, at, n)
  {
    at := [];
    if n > 0 {
      hide *;
      at := SaidSpeaksOf(last, project, worktree, snapshot, n - 1);
      SpeaksNext(SaidUpTo(last, project, worktree, snapshot, n - 1), last, project, worktree, snapshot, at, n - 1);
      SaidNext(last, project, worktree, snapshot, n - 1);
      if !Heard(last, project, worktree, snapshot, n - 1) || snapshot[n - 1].severity.Critical? {
        at := at + [n - 1];
      }
    }
  }

  lemma SaidSpeaks(last: Memory, project: Str, worktree: Str, snapshot: seq<Notice>)
    ensures exists at ::
      Speaks(SaidUpTo(last, project, worktree, snapshot, |snapshot|), last, project, worktree, snapshot, at)
  {
    hide SpeaksOf, SaidUpTo;
    var at := SaidSpeaksOf(last, project, worktree, snapshot, |snapshot|);
    assert Speaks(SaidUpTo(last, project, worktree, snapshot, |snapshot|), last, project, worktree, snapshot, at);
  }

  lemma FollowsHere(last: Memory, project: Str, worktree: Str, snapshot: seq<Notice>, next: Memory, c: Str)
    requires Follows(last, project, worktree, snapshot, next)
    ensures forall j: nat :: LastOf(snapshot, |snapshot|, c, j) ==>
      NoticeKey(project, worktree, c) in next && next[NoticeKey(project, worktree, c)] == snapshot[j].identity
    ensures (forall j :: 0 <= j < |snapshot| ==> snapshot[j].category != c) ==> NoticeKey(project, worktree, c) !in next
  {
    assert snapshot[..|snapshot|] == snapshot;
    LastIdentityIs(snapshot, |snapshot|, c);
    var k := NoticeKey(project, worktree, c);
    assert Remembered(next, k.project, k.worktree, k.category) == LastIdentity(snapshot, k.category);
    hide LastIdentity, LastOf, Follows;
  }

  lemma FollowsRemembers(last: Memory, project: Str, worktree: Str, snapshot: seq<Notice>, next: Memory)
    requires Follows(last, project, worktree, snapshot, next)
    ensures Remembers(next, last, project, worktree, snapshot)
  {
    forall k: NoticeKey | k.project != project || k.worktree != worktree
      ensures (k in next <==> k in last) && (k in last ==> next[k] == last[k]) {
      assert Remembered(next, k.project, k.worktree, k.category) == Remembered(last, k.project, k.worktree, k.category);
      assert k == NoticeKey(k.project, k.worktree, k.category);
    }
    hide LastIdentity, LastOf, Follows, Remembered;
    forall c, j: nat | LastOf(snapshot, |snapshot|, c, j)
      ensures NoticeKey(project, worktree, c) in next && next[NoticeKey(project, worktree, c)] == snapshot[j].identity {
      FollowsHere(last, project, worktree, snapshot, next, c);
    }
    forall c | forall j :: 0 <= j < |snapshot| ==> snapshot[j].category != c
      ensures NoticeKey(project, worktree, c) !in next {
      FollowsHere(last, project, worktree, snapshot, next, c);
    }
  }

  class NoticeState {
    var last: Memory

    constructor ()
      ensures last == map[]
    {
      last := map[];
    }

    method Present(project: Str, worktree: Str, snapshot: seq<Notice>) returns (out: seq<Str>)
      modifies this
      ensures out == SaidUpTo(old(last), project, worktree, snapshot, |snapshot|)
      ensures Follows(old(last), project, worktree, snapshot, last)
      ensures exists at :: Speaks(out, old(last), project, worktree, snapshot, at)
      ensures Remembers(last, old(last), project, worktree, snapshot)
    {
      SaidSpeaks(last, project, worktree, snapshot);
      hide Speaks, Remembers;
      out := [];
      var seen: set<Str> := {};
      for i := 0 to |snapshot|
        invariant out == SaidUpTo(old(last), project, worktree, snapshot, i)
        invariant Within(old(last), project, worktree, snapshot, i, last)
        invariant forall c :: c in seen <==> LastIdentity(snapshot[..i], c).Some?
      {
        var n := snapshot[i];
        seen := seen + {n.category};
        assert snapshot[..i + 1][..i] == snapshot[..i];
        var key := NoticeKey(project, worktree, n.category);
        WithinKnown(old(last), project, worktree, snapshot, i, last);
        WithinStep(old(last), project, worktree, snapshot, i, last);
        hide Within, SaidUpTo;
        assert Remembered(last, project, worktree, n.category) ==
          Known(old(last), project, worktree, snapshot, i, n.category);
        SaidStep(old(last), project, worktree, snapshot, i);
        var text: Str;
        if key !in last || last[key] != n.identity {
          text := n.text;
        } else if n.severity.Critical? {
          text := n.compact;
        } else {
          assert last[key := n.identity] == last;
          continue;
        }
        last := last[key := n.identity];
        out := out + [text];
      }
      assert snapshot[..|snapshot|] == snapshot;
      ghost var before := last;
      last := map k | k in last && (k.project == project && k.worktree == worktree ==> k.category in seen) :: last[k];
      RetainFollows(old(last), project, worktree, snapshot, before, last, seen);
      FollowsRemembers(old(last), project, worktree, snapshot, last);
    }
  }

  /** The memory while the first `i` notices have been taken in and nothing was dropped yet. */
  ghost predicate Within(last: Memory, project: Str, worktree: Str, snapshot: seq<Notice>, i: nat, now: Memory)
    requires i <= |snapshot|
  {
    forall k: NoticeKey :: Remembered(now, k.project, k.worktree, k.category) ==
      if k.project == project && k.worktree == worktree then Known(last, project, worktree, snapshot, i, k.category)
      else Remembered(last, k.project, k.worktree, k.category)
  }

  lemma WithinKnown(last: Memory, project: Str, worktree: Str, snapshot: seq<Notice>, i: nat, now: Memory)
    requires i < |snapshot| && Within(last, project, worktree, snapshot, i, now)
    ensures Remembered(now, project, worktree, snapshot[i].category) ==
      Known(last, project, worktree, snapshot, i, snapshot[i].category)
  {
    var k := NoticeKey(project, worktree, snapshot[i].category);
    hide Known, Remembered;
    assert Remembered(now, k.project, k.worktree, k.category) ==
      Known(last, project, worktree, snapshot, i, k.category);
  }

  lemma WithinStep(last: Memory, project: Str, worktree: Str, snapshot: seq<Notice>, i: nat, now: Memory)
    requires i < |snapshot| && Within(last, project, worktree, snapshot, i, now)
    ensures Within(last, project, worktree, snapshot, i + 1,
                   now[NoticeKey(project, worktree, snapshot[i].category) := snapshot[i].identity])
  {
    var n := snapshot[i];
    var next := now[NoticeKey(project, worktree, n.category) := n.identity];
    assert snapshot[..i + 1][..i] == snapshot[..i];
    forall k: NoticeKey
      ensures Remembered(next, k.project, k.worktree, k.category) ==
        if k.project == project && k.worktree == worktree then
          Known(last, project, worktree, snapshot, i + 1, k.category)
        else Remembered(last, k.project, k.worktree, k.category)
    {
      assert k == NoticeKey(k.project, k.worktree, k.category);
    }
  }

  lemma SaidStep(last: Memory, project: Str, worktree: Str, snapshot: seq<Notice>, i: nat)
    requires i < |snapshot|
    ensures var said := Said(Known(last, project, worktree, snapshot, i, snapshot[i].category), snapshot[i]);
      SaidUpTo(last, project, worktree, snapshot, i + 1) ==
      SaidUpTo(last, project, worktree, snapshot, i) + (if said.Some? then [said.value] else [])
  {
  }

  lemma RetainFollows(last: Memory, project: Str, worktree: Str, snapshot: seq<Notice>, before: Memory, next: Memory,
                      seen: set<Str>)
    requires Within(last, project, worktree, snapshot, |snapshot|, before)
    requires forall c :: c in seen <==> LastIdentity(snapshot, c).Some?
    requires next == map k | k in before &&
      (k.project == project && k.worktree == worktree ==> k.category in seen) :: before[k]
    ensures Follows(last, project, worktree, snapshot, next)
  {
    assert snapshot[..|snapshot|] == snapshot;
    forall k: NoticeKey
      ensures Remembered(next, k.project, k.worktree, k.category) ==
        if k.project == project && k.worktree == worktree then LastIdentity(snapshot, k.category)
        else Remembered(last, k.project, k.worktree, k.category)
    {
      assert k == NoticeKey(k.project, k.worktree, k.category);
      assert Remembered(before, k.project, k.worktree, k.category) ==
        if k.project == project && k.worktree == worktree then
          Known(last, project, worktree, snapshot, |snapshot|, k.category)
        else Remembered(last, k.project, k.worktree, k.category);
    }
  }

  // ---- over a whole run ----

  datatype Call = Call(project: Str, worktree: Str, snapshot: seq<Notice>)

  /** The memories a run of calls goes through, from an empty one. */
  ghost predicate Run(calls: seq<Call>, memories: seq<Memory>) {
    && |memories| == |calls| + 1 && memories[0] == map[]
    && forall i :: 0 <= i < |calls| ==>
      Follows(memories[i], calls[i].project, calls[i].worktree, calls[i].snapshot, memories[i + 1])
  }

  /** The latest snapshot of a worktree among the first `n` calls. */
  function Latest(calls: seq<Call>, n: nat, project: Str, worktree: Str): seq<Notice>
    requires n <= |calls|
  {
    if n == 0 then []
    else if calls[n - 1].project == project && calls[n - 1].worktree == worktree then calls[n - 1].snapshot
    else Latest(calls, n - 1, project, worktree)
  }

  /** Whatever happened in any worktree, what is remembered of one is exactly its latest snapshot. */
  lemma {:induction false} MemoryIsLatestSnapshot(calls: seq<Call>, memories: seq<Memory>, n: nat, project: Str,
                                                  worktree: Str, category: Str)
    requires Run(calls, memories) && n <= |calls|
    ensures Remembered(memories[n], project, worktree, category) ==
      LastIdentity(Latest(calls, n, project, worktree), category)
  {
    if n > 0 {
      MemoryIsLatestSnapshot(calls, memories, n - 1, project, worktree, category);
      var k := NoticeKey(project, worktree, category);
      hide LastIdentity, Remembered;
      assert Remembered(memories[n], k.project, k.worktree, k.category) ==
        if k.project == calls[n - 1].project && k.worktree == calls[n - 1].worktree
        then LastIdentity(calls[n - 1].snapshot, k.category)
        else Remembered(memories[n - 1], k.project, k.worktree, k.category);
    }
  }

  predicate DistinctCategories(snapshot: seq<Notice>) {
    forall i, j :: 0 <= i < j < |snapshot| ==> snapshot[i].category != snapshot[j].category
  }

  lemma {:induction false} NotMentioned(notices: seq<Notice>, category: Str)
    requires forall k :: 0 <= k < |notices| ==> notices[k].category != category
    ensures LastIdentity(notices, category) == None
  {
    if notices != [] { NotMentioned(notices[..|notices| - 1], category); }
  }

  /** What the `i`-th notice of call `n` is answered with. */
  function Answer(calls: seq<Call>, memories: seq<Memory>, n: nat, i: nat): Option<Str>
    requires n < |calls| && |memories| == |calls| + 1 && i < |calls[n].snapshot|
  {
    var c := calls[n];
    Said(Known(memories[n], c.project, c.worktree, c.snapshot, i, c.snapshot[i].category), c.snapshot[i])
  }

  /** A critical notice is spoken on every call that holds it; any other exactly when the previous
      snapshot of its worktree did not hold it with that identity. In full the first time, and
      whenever the identity changed. */
  lemma SpokenExactlyWhenNew(calls: seq<Call>, memories: seq<Memory>, n: nat, i: nat)
    requires Run(calls, memories) && n < |calls| && i < |calls[n].snapshot|
    requires DistinctCategories(calls[n].snapshot)
    ensures var c := calls[n]; var notice := c.snapshot[i]; var answer := Answer(calls, memories, n, i);
      var same := LastIdentity(Latest(calls, n, c.project, c.worktree), notice.category) == Some(notice.identity);
      && (notice.severity.Critical? ==> answer.Some?)
      && (!notice.severity.Critical? ==> (answer.Some? <==> !same))
      && (!same ==> answer == Some(notice.text))
      && (same && answer.Some? ==> answer == Some(notice.compact))
  {
    var c := calls[n];
    NotMentioned(c.snapshot[..i], c.snapshot[i].category);
    MemoryIsLatestSnapshot(calls, memories, n, c.project, c.worktree, c.snapshot[i].category);
    hide Run, LastIdentity, Latest;
  }
}
