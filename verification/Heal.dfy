/** Answering a `blob_missing` park (crates/rc-agent/src/engine.rs): one mark per task says
    whether an upload for its current round is under way or how it ended. */
module Heal {
  import opened Text

  type TaskId = Str

  /** `retryAfter` is set for a failure, on an abstract clock. */
  datatype HealState = InProgress | Settled(note: Str, retryAfter: Option<nat>)

  datatype Mark = Mark(round: nat, state: HealState)

  type Marks = map<TaskId, Mark>

  const HEAL_SOURCES_KEPT: nat := 16
  const CAPACITY: nat := 4 * HEAL_SOURCES_KEPT

  /** Whether a mark already answers a call for `round` at time `now`. */
  predicate Answers(mark: Mark, round: nat, now: nat) {
    && mark.round == round
    && (mark.state.InProgress? || mark.state.retryAfter.None? || now < mark.state.retryAfter.value)
  }

  function Begun(marks: Marks, task: TaskId, round: nat): Marks {
    (if |marks| >= CAPACITY then map[] else marks)[task := Mark(round, InProgress)]
  }

  function Cleared(marks: Marks, task: TaskId, round: nat): Marks {
    if task in marks && marks[task] == Mark(round, InProgress) then marks - {task} else marks
  }

  datatype Verdict = Busy | Told(note: Str) | Start

  /** Each method is one region under the lock. */
  class HealAttempts {
    var marks: Marks

    constructor ()
      ensures marks == map[]
    {
      marks := map[];
    }

    method Begin(task: TaskId, round: nat, now: nat) returns (verdict: Verdict)
      modifies this
      ensures verdict.Start? <==> !(task in old(marks) && Answers(old(marks)[task], round, now))
      ensures verdict.Busy? ==> old(marks)[task] == Mark(round, InProgress)
      ensures verdict.Told? ==> old(marks)[task].round == round
      ensures verdict.Told? ==> old(marks)[task].state.Settled? && old(marks)[task].state.note == verdict.note
      ensures marks == if verdict.Start? then Begun(old(marks), task, round) else old(marks)
      ensures verdict.Start? <==> task in old(marks) && old(marks)[task].round == round ==>
        old(marks)[task].state.Settled? && old(marks)[task].state.retryAfter.Some? &&
        old(marks)[task].state.retryAfter.value <= now
      ensures verdict.Start? ==>
        marks == (if |old(marks)| < 64 then old(marks) else map[])[task := Mark(round, InProgress)]
    {
      if task in marks && marks[task].round == round {
        match marks[task].state
        case InProgress => return Busy;
        case Settled(note, retryAfter) =>
          if retryAfter.None? || now < retryAfter.value {
            return Told(note);
          }
      }
      if |marks| >= CAPACITY {
        marks := map[];
      }
      marks := marks[task := Mark(round, InProgress)];
      verdict := Start;
    }

    method Settle(task: TaskId, round: nat, note: Str, retryAfter: Option<nat>)
      modifies this
      ensures marks == old(marks)[task := Mark(round, Settled(note, retryAfter))]
    {
      marks := marks[task := Mark(round, Settled(note, retryAfter))];
    }

    /** The guard's destructor. */
    method DropGuard(task: TaskId, round: nat)
      modifies this
      ensures marks == Cleared(old(marks), task, round)
      ensures task in old(marks) && old(marks)[task] == Mark(round, InProgress) ==> marks == old(marks) - {task}
      ensures !(task in old(marks) && old(marks)[task] == Mark(round, InProgress)) ==> marks == old(marks)
    {
      if task in marks && marks[task].round == round && marks[task].state.InProgress? {
        marks := marks - {task};
      }
    }
  }

  // ---- whose files are still known ----

  function Without(ids: seq<TaskId>, task: TaskId): (r: seq<TaskId>)
    ensures |r| <= |ids|
    ensures forall t :: t in r <==> t in ids && t != task
  {
    if ids == [] then []
    else
      var n := |ids| - 1;
      Without(ids[..n], task) + (if ids[n] == task then [] else [ids[n]])
  }

  function Newest(ids: seq<TaskId>): seq<TaskId> {
    if |ids| > HEAL_SOURCES_KEPT then ids[|ids| - HEAL_SOURCES_KEPT..] else ids
  }

  /** The task goes last; the oldest beyond sixteen is dropped. */
  function Remembered(ids: seq<TaskId>, task: TaskId): seq<TaskId> {
    Newest(Without(ids, task) + [task])
  }

  class HealSources {
    var ids: seq<TaskId>

    constructor ()
      ensures ids == []
    {
      ids := [];
    }

    method Remember(task: TaskId)
      modifies this
      ensures ids == Remembered(old(ids), task)
      ensures ids != [] && ids[|ids| - 1] == task && |ids| <= 16
    {
      var kept: seq<TaskId> := [];
      for i := 0 to |ids|
        invariant kept == Without(ids[..i], task) && ids == old(ids)
      {
        assert ids[..i + 1][..i] == ids[..i];
        if ids[i] != task {
          kept := kept + [ids[i]];
        }
      }
      assert ids[..|ids|] == ids;
      kept := kept + [task];
      var excess := if |kept| > HEAL_SOURCES_KEPT then |kept| - HEAL_SOURCES_KEPT else 0;
      ids := kept[excess..];
    }

    method Knows(task: TaskId) returns (found: bool)
      ensures found <==> task in ids
    {
      for i := 0 to |ids|
        invariant task !in ids[..i]
      {
        if ids[i] == task {
          return true;
        }
      }
      assert ids[..|ids|] == ids;
      return false;
    }
  }

  /** The tasks of some submissions, each at its last one, the latest last. */
  function ByLast(submitted: seq<TaskId>): seq<TaskId> {
    if submitted == [] then []
    else Without(ByLast(submitted[..|submitted| - 1]), submitted[|submitted| - 1]) + [submitted[|submitted| - 1]]
  }

  function Kept(submitted: seq<TaskId>): seq<TaskId> {
    if submitted == [] then [] else Remembered(Kept(submitted[..|submitted| - 1]), submitted[|submitted| - 1])
  }

  lemma {:induction false} WithoutConcat(a: seq<TaskId>, b: seq<TaskId>, task: TaskId)
    ensures Without(a + b, task) == Without(a, task) + Without(b, task)
  {
    if b == [] {
      assert a + b == a;
    } else {
      var n := |b| - 1;
      WithoutConcat(a, b[..n], task);
      assert (a + b)[..|a + b| - 1] == a + b[..n];
    }
  }

  predicate Once(ids: seq<TaskId>) {
    forall i, j :: 0 <= i < j < |ids| ==> ids[i] != ids[j]
  }

  lemma {:induction false} WithoutOnce(ids: seq<TaskId>, task: TaskId)
    requires Once(ids)
    ensures |Without(ids, task)| >= |ids| - 1
    ensures task !in ids ==> Without(ids, task) == ids
    ensures Once(Without(ids, task))
  {
    if ids != [] {
      var n := |ids| - 1;
      WithoutOnce(ids[..n], task);
      assert ids[n] !in ids[..n];
    }
  }

  lemma NewestOfLong(a: seq<TaskId>, b: seq<TaskId>)
    requires |b| >= HEAL_SOURCES_KEPT
    ensures Newest(a + b) == Newest(b)
  {
  }

  /** Forgetting and trimming commute: what is trimmed is older than what stays. */
  lemma NewestOfTrimmed(ids: seq<TaskId>, task: TaskId)
    requires Once(ids)
    ensures Newest(Without(Newest(ids), task) + [task]) == Newest(Without(ids, task) + [task])
  {
    if |ids| > HEAL_SOURCES_KEPT {
      var cut := |ids| - HEAL_SOURCES_KEPT;
      var head, tail := ids[..cut], ids[cut..];
      assert ids == head + tail && Newest(ids) == tail;
      WithoutConcat(head, tail, task);
      WithoutOnce(tail, task);
      hide Newest, Without;
      assert Without(ids, task) + [task] == Without(head, task) + (Without(tail, task) + [task]);
      NewestOfLong(Without(head, task), Without(tail, task) + [task]);
    }
  }

  lemma {:induction false} ByLastDistinct(submitted: seq<TaskId>)
    ensures Once(ByLast(submitted))
  {
    if submitted != [] {
      var n := |submitted| - 1;
      ByLastDistinct(submitted[..n]);
      WithoutOnce(ByLast(submitted[..n]), submitted[n]);
    }
  }

  /** After any submissions the table holds the sixteen tasks submitted last, each once. */
  lemma {:induction false} NewestAreKept(submitted: seq<TaskId>)
    ensures Kept(submitted) == Newest(ByLast(submitted))
  {
    if submitted != [] {
      var n := |submitted| - 1;
      NewestAreKept(submitted[..n]);
      ByLastDistinct(submitted[..n]);
      NewestOfTrimmed(ByLast(submitted[..n]), submitted[n]);
    }
  }

  // ---- interleavings ----

  /** A call uploading for a round; `settled` between writing its answer and dropping. */
  datatype Guard = Guard(task: TaskId, round: nat, settled: bool)

  datatype State = State(sources: seq<TaskId>, marks: Marks, guards: map<nat, Guard>)

  datatype Event =
      /** This process submits the task, or attaches to it. */
    | Remember(task: TaskId)
    | Begin(guard: nat, task: TaskId, round: nat, now: nat)
    | Settle(guard: nat, note: Str, retryAfter: Option<nat>)
      /** Right after settling, or because the request was canceled mid-upload. */
    | Drop(guard: nat)

  const INITIAL := State([], map[], map[])

  predicate Starts(s: State, e: Event) {
    e.Begin? && e.guard !in s.guards && e.task in s.sources &&
      !(e.task in s.marks && Answers(s.marks[e.task], e.round, e.now))
  }

  function Apply(s: State, e: Event): State {
    match e
    case Remember(task) => s.(sources := Remembered(s.sources, task))
    case Begin(g, task, round, now) =>
      if Starts(s, e) then s.(marks := Begun(s.marks, task, round), guards := s.guards[g := Guard(task, round, false)])
      else s
    case Settle(g, note, retryAfter) =>
      if g in s.guards && !s.guards[g].settled then
        var guard := s.guards[g];
        s.(marks := s.marks[guard.task := Mark(guard.round, Settled(note, retryAfter))],
           guards := s.guards[g := guard.(settled := true)])
      else s
    case Drop(g) =>
      if g in s.guards
      then s.(marks := Cleared(s.marks, s.guards[g].task, s.guards[g].round), guards := s.guards - {g})
      else s
  }

  function Run(events: seq<Event>): State {
    if events == [] then INITIAL
    else Apply(Run(events[..|events| - 1]), events[|events| - 1])
  }

  ghost predicate HasGuard(s: State, task: TaskId, round: nat) {
    exists g :: g in s.guards && s.guards[g].task == task && s.guards[g].round == round
  }

  /** Every in-progress mark is covered by a guard for that task and round. */
  ghost predicate Guarded(s: State) {
    forall t :: t in s.marks && s.marks[t].state.InProgress? ==> HasGuard(s, t, s.marks[t].round)
  }

  lemma GuardedStep(s: State, e: Event)
    requires Guarded(s)
    ensures Guarded(Apply(s, e))
  {
    var s' := Apply(s, e);
    forall t | t in s'.marks && s'.marks[t].state.InProgress? ensures HasGuard(s', t, s'.marks[t].round) {
      if Starts(s, e) && t == e.task {
        assert s'.guards[e.guard] == Guard(t, e.round, false);
      } else {
        assert t in s.marks && s.marks[t] == s'.marks[t];
        var g :| g in s.guards && s.guards[g].task == t && s.guards[g].round == s.marks[t].round;
        assert g in s'.guards && s'.guards[g].task == t && s'.guards[g].round == s.marks[t].round;
      }
    }
  }

  /** Over every interleaving, cancellations and wholesale clearing included: an in-progress
      mark has a live guard for its task and round, so once no upload is under way none is left
      to turn a poll away. */
  lemma {:induction false} MarksNeverLeak(events: seq<Event>)
    ensures Guarded(Run(events))
    ensures Run(events).guards == map[] ==>
      forall t :: t in Run(events).marks ==> Run(events).marks[t].state.Settled?
  {
    if events != [] {
      MarksNeverLeak(events[..|events| - 1]);
      GuardedStep(Run(events[..|events| - 1]), events[|events| - 1]);
    }
  }

  // ---- one attempt per park, and when ----

  ghost predicate Uploading(s: State) {
    exists g :: g in s.guards && !s.guards[g].settled
  }

  /** An upload starts without clearing the table under another one, and with no call on its task
      that is still to drop its guard. */
  ghost predicate OrderlyStart(s: State, e: Event)
    requires e.Begin?
  {
    && (|s.marks| < CAPACITY || !Uploading(s))
    && forall g :: g in s.guards ==> s.guards[g].task != e.task
  }

  ghost predicate Orderly(events: seq<Event>) {
    events == [] ||
    (var s, e := Run(events[..|events| - 1]), events[|events| - 1];
     Orderly(events[..|events| - 1]) && (Starts(s, e) ==> OrderlyStart(s, e)))
  }

  /** Uploads under way: each owns its task's mark, and there is one per task. */
  ghost predicate Owned(s: State) {
    && (forall g :: g in s.guards && !s.guards[g].settled ==>
          s.guards[g].task in s.marks && s.marks[s.guards[g].task] == Mark(s.guards[g].round, InProgress))
    && (forall g, h :: g in s.guards && h in s.guards && s.guards[g].task == s.guards[h].task ==> g == h)
  }

  lemma OrderlyKeeps(s: State, e: Event)
    requires Owned(s) && (Starts(s, e) ==> OrderlyStart(s, e))
    ensures Owned(Apply(s, e))
  {
    hide Remembered;
  }

  lemma DisorderBreaks(s: State, e: Event)
    requires Owned(s) && Starts(s, e) && !OrderlyStart(s, e)
    ensures !Owned(Apply(s, e))
  {
    var s' := Apply(s, e);
    assert s'.guards[e.guard] == Guard(e.task, e.round, false);
    if g :| g in s.guards && s.guards[g].task == e.task {
      assert g != e.guard && s'.guards[g] == s.guards[g];
    } else {
      var g :| g in s.guards && !s.guards[g].settled;
      assert s'.guards[g] == s.guards[g] && s.guards[g].task !in s'.marks;
    }
  }

  /** Every upload of a step keeps its mark, alone on its task, exactly when the start of a new one
      is orderly. */
  lemma OwnedExactly(s: State, e: Event)
    requires Owned(s)
    ensures Owned(Apply(s, e)) <==> (Starts(s, e) ==> OrderlyStart(s, e))
  {
    hide Owned, OrderlyStart, Apply;
    if Starts(s, e) && !OrderlyStart(s, e) {
      DisorderBreaks(s, e);
    } else {
      OrderlyKeeps(s, e);
    }
  }

  /** While marks are kept, a second upload of a task starts exactly for another round. */
  lemma SecondUploadExactly(s: State, e: Event, g: nat)
    requires Owned(s) && e.Begin? && g in s.guards && !s.guards[g].settled && s.guards[g].task == e.task
    ensures Starts(s, e) <==> e.guard !in s.guards && e.task in s.sources && e.round != s.guards[g].round
  {
  }

  /** At the end of the run and all the time before. */
  ghost predicate AlwaysOwned(events: seq<Event>) {
    Owned(Run(events)) && (events == [] || AlwaysOwned(events[..|events| - 1]))
  }

  /** Over every run: there is at most one upload per task at a time, each with its mark, exactly when
      the table is never cleared under one and no call begins on a task that has one. */
  lemma {:induction false} OneUploadAtATime(events: seq<Event>)
    ensures AlwaysOwned(events) <==> Orderly(events)
  {
    if events != [] {
      var n := |events| - 1;
      OneUploadAtATime(events[..n]);
      if Owned(Run(events[..n])) {
        OwnedExactly(Run(events[..n]), events[n]);
      }
      hide Owned, Starts, Apply;
    }
  }

  // ---- what disorder does ----

  /** `n` tasks, submitted and parked one after the other. */
  function Prefilled(n: nat): (r: seq<Event>)
    requires n <= CAPACITY
    ensures |r| == 2 * n
  {
    if n == 0 then [] else Prefilled(n - 1) + [Remember([n as byte]), Begin(n, [n as byte], 1, 0)]
  }

  ghost predicate HoldsFirst(s: State, n: nat) {
    && |s.marks| == n
    && (forall t :: t in s.marks ==> |t| == 1 && 1 <= t[0] as int <= n)
    && (forall g :: g in s.guards ==> 1 <= g <= n)
    && (n >= 1 ==> 1 in s.guards && s.guards[1] == Guard([1], 1, false))
  }

  lemma RunOfMore(events: seq<Event>, e: Event)
    ensures Run(events + [e]) == Apply(Run(events), e)
  {
    assert (events + [e])[..|events|] == events;
  }

  lemma RememberedIsKnown(ids: seq<TaskId>, task: TaskId)
    ensures task in Remembered(ids, task)
  {
    var all := Without(ids, task) + [task];
    assert Newest(all)[|Newest(all)| - 1] == task;
  }

  /** A task is submitted and a call for it begins. */
  function Parked(s: State, g: nat, task: TaskId): State {
    Apply(Apply(s, Remember(task)), Begin(g, task, 1, 0))
  }

  lemma RunOfParked(events: seq<Event>, g: nat, task: TaskId)
    ensures Run(events + [Remember(task), Begin(g, task, 1, 0)]) == Parked(Run(events), g, task)
  {
    hide Apply;
    RunOfMore(events, Remember(task));
    RunOfMore(events + [Remember(task)], Begin(g, task, 1, 0));
    assert events + [Remember(task), Begin(g, task, 1, 0)] == events + [Remember(task)] + [Begin(g, task, 1, 0)];
  }

  lemma ParkedIs(s: State, g: nat, task: TaskId)
    requires g !in s.guards && task !in s.marks
    ensures Parked(s, g, task).marks == Begun(s.marks, task, 1)
    ensures Parked(s, g, task).guards == s.guards[g := Guard(task, 1, false)]
  {
    RememberedIsKnown(s.sources, task);
    hide Remembered;
  }

  lemma {:induction false} PrefilledRun(n: nat)
    requires n <= CAPACITY
    ensures HoldsFirst(Run(Prefilled(n)), n)
  {
    if n > 0 {
      PrefilledRun(n - 1);
      RunOfParked(Prefilled(n - 1), n, [n as byte]);
      ParkNext(Run(Prefilled(n - 1)), n);
    }
  }

  lemma ParkNext(s: State, n: nat)
    requires 0 < n <= CAPACITY && HoldsFirst(s, n - 1)
    ensures HoldsFirst(Parked(s, n, [n as byte]), n)
  {
    hide Parked;
    var task: Str := [n as byte];
    assert task !in s.marks;
    ParkedIs(s, n, task);
    assert s.marks[task := Mark(1, InProgress)].Keys == s.marks.Keys + {task};
  }

  /** Clearing the table breaks it: with 64 tasks parked, a call for a 65th clears the marks. Task 1,
      long dropped from the sixteen whose files are known, is submitted once more, and a second
      call for its round uploads beside the first. */
  lemma ClearingAllowsASecondUpload()
    ensures var s := Run(Prefilled(CAPACITY) + [Remember([65]), Begin(65, [65], 1, 0)]
                         + [Remember([1]), Begin(66, [1], 1, 0)]);
      1 in s.guards && 66 in s.guards && s.guards[1] == s.guards[66] == Guard([1], 1, false)
  {
    PrefilledRun(CAPACITY);
    var p := Prefilled(CAPACITY);
    RunOfParked(p, 65, [65]);
    RunOfParked(p + [Remember([65]), Begin(65, [65], 1, 0)], 66, [1]);
    hide Parked, Prefilled, Run;
    ParkedIs(Run(p), 65, [65]);
    var s := Parked(Run(p), 65, [65]);
    assert s.marks == map[[65] := Mark(1, InProgress)];
    assert [1 as byte][0] != [65 as byte][0];
    ParkedIs(s, 66, [1]);
  }

  /** So do rounds that overlap: a call that saw an older park of the task uploads for its own round. */
  lemma OverlappingRoundsUploadTogether(task: TaskId)
    ensures var s := Run([Remember(task), Begin(1, task, 2, 0), Begin(2, task, 1, 0)]);
      s.guards == map[1 := Guard(task, 2, false), 2 := Guard(task, 1, false)]
  {
    var a, b, c := Remember(task), Begin(1, task, 2, 0), Begin(2, task, 1, 0);
    assert [a, b, c] == [a, b] + [c] && [a, b] == [a] + [b] && [a] == [] + [a];
    RunOfMore([], a);
    RunOfMore([a], b);
    RunOfMore([a, b], c);
    RememberedIsKnown([], task);
    hide Remembered, Run;
  }
}
