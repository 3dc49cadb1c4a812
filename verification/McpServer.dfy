/** The request loop of the stdio server (crates/rc-agent/src/mcp.rs): requests run side by side,
    a cancellation names one by its id, and every task of its own takes its entry out again
    before it answers. */
module McpServer {
  import opened Text

  /** A request id as its JSON text. */
  type Id = Str

  /** Tasks are numbered in the order their requests arrived. */
  type Registry = map<Id, nat>

  function Unregistered(inFlight: Registry, id: Id, task: nat): Registry {
    if id in inFlight && inFlight[id] == task then inFlight - {id} else inFlight
  }

  /** The shared table; each method is one region under its lock. */
  class InFlight {
    var entries: Registry

    constructor ()
      ensures entries == map[]
    {
      entries := map[];
    }

    /** An id used again forgets the earlier request's handle. */
    method Register(id: Id, task: nat)
      modifies this
      ensures entries == old(entries)[id := task]
    {
      entries := entries[id := task];
    }

    /** What a cancellation takes out, to abort it. */
    method Take(id: Id) returns (task: Option<nat>)
      modifies this
      ensures task == if id in old(entries) then Some(old(entries)[id]) else None
      ensures entries == old(entries) - {id}
    {
      task := None;
      if id in entries {
        task := Some(entries[id]);
        entries := entries - {id};
      }
    }

    /** A finishing task removes its entry, and only its own. */
    method Unregister(id: Id, task: nat)
      modifies this
      ensures entries == Unregistered(old(entries), id, task)
    {
      if id in entries && entries[id] == task {
        entries := entries - {id};
      }
    }
  }

  // ---- the tasks and the loop ----

  /** `Waiting` for its registration, `Handling` the request, `Finishing` between the last await
      point and unregistering, `Answering` between that and sending. */
  datatype Phase = Waiting | Handling | Finishing | Answering | Done | Aborted

  /** `answers`: the request has an id and a string method. */
  datatype Task = Task(id: Option<Id>, answers: bool, phase: Phase, cancelled: bool)

  /** What the loop is about to do; only `Reading` looks at the next line. */
  datatype Loop = Reading | Registering(task: nat) | Releasing(task: nat) | Draining

  datatype Message = Answer(task: nat) | ParseError

  datatype State = State(inFlight: Registry, tasks: seq<Task>, loop: Loop, sent: seq<Message>)

  const INITIAL := State(map[], [], Reading, [])

  datatype Event =
    | BadLine
    | Cancel(id: Option<Id>)
    | Arrive(requestId: Option<Id>, answerable: bool)
    | Register
    | Release
    | Close
      /** Steps of one task. */
    | Start(task: nat)
    | Finish(task: nat)
    | Unregister(task: nat)
    | Send(task: nat)
    | Die(task: nat)

  predicate Held(s: State, t: nat) {
    (s.loop.Registering? || s.loop.Releasing?) && s.loop.task == t
  }

  predicate In(s: State, t: nat, p: Phase) {
    t < |s.tasks| && s.tasks[t].phase == p
  }

  /** Which events can happen. Aborting takes hold only at an await point. */
  predicate Enabled(s: State, e: Event) {
    match e
    case BadLine => s.loop.Reading?
    case Cancel(_) => s.loop.Reading?
    case Arrive(_, _) => s.loop.Reading?
    case Register => s.loop.Registering?
    case Release => s.loop.Releasing?
    case Close => s.loop.Reading?
    case Start(t) => In(s, t, Waiting) && !Held(s, t)
    case Finish(t) => In(s, t, Handling)
    case Unregister(t) => In(s, t, Finishing)
    case Send(t) => In(s, t, Answering)
    case Die(t) => (In(s, t, Waiting) || In(s, t, Handling)) && s.tasks[t].cancelled
  }

  function Moved(s: State, t: nat, p: Phase): seq<Task>
    requires t < |s.tasks|
  {
    s.tasks[t := s.tasks[t].(phase := p)]
  }

  function Apply(s: State, e: Event): State {
    if !Enabled(s, e) then s
    else match e
      case BadLine => s.(sent := s.sent + [ParseError])
      case Cancel(id) =>
        if id.Some? && id.value in s.inFlight && s.inFlight[id.value] < |s.tasks| then
          var t := s.inFlight[id.value];
          s.(inFlight := s.inFlight - {id.value}, tasks := s.tasks[t := s.tasks[t].(cancelled := true)])
        else s
      case Arrive(id, answerable) =>
        var t := |s.tasks|;
        s.(tasks := s.tasks + [Task(id, answerable && id.Some?, Waiting, false)],
           loop := if id.Some? then Registering(t) else Releasing(t))
      case Register =>
        var t := s.loop.task;
        if t < |s.tasks| && s.tasks[t].id.Some? then
          s.(inFlight := s.inFlight[s.tasks[t].id.value := t], loop := Releasing(t))
        else s
      case Release => s.(loop := Reading)
      case Close => s.(loop := Draining)
      case Start(t) => s.(tasks := Moved(s, t, Handling))
      case Finish(t) => s.(tasks := Moved(s, t, Finishing))
      case Unregister(t) =>
        s.(inFlight := if s.tasks[t].id.Some? then Unregistered(s.inFlight, s.tasks[t].id.value, t) else s.inFlight,
           tasks := Moved(s, t, Answering))
      case Send(t) =>
        s.(tasks := Moved(s, t, Done), sent := if s.tasks[t].answers then s.sent + [Answer(t)] else s.sent)
      case Die(t) => s.(tasks := Moved(s, t, Aborted))
  }

  function Run(events: seq<Event>): State {
    if events == [] then INITIAL
    else Apply(Run(events[..|events| - 1]), events[|events| - 1])
  }

  // ---- what every step keeps ----

  predicate Pending(p: Phase) {
    p.Waiting? || p.Handling? || p.Finishing?
  }

  /** A registered task is one that has not unregistered yet and that nobody has cancelled. */
  ghost predicate EntriesLive(s: State) {
    forall id :: id in s.inFlight ==>
      && s.inFlight[id] < |s.tasks| && s.tasks[s.inFlight[id]].id == Some(id)
      && Pending(s.tasks[s.inFlight[id]].phase) && !s.tasks[s.inFlight[id]].cancelled
  }

  /** Between its arrival and its release, the newest task waits; it is not cancelled before it
      is registered. */
  ghost predicate LoopHolds(s: State) {
    match s.loop
    case Registering(t) =>
      t + 1 == |s.tasks| && s.tasks[t].id.Some? && s.tasks[t].phase.Waiting? && !s.tasks[t].cancelled
    case Releasing(t) => t + 1 == |s.tasks| && s.tasks[t].phase.Waiting? && !s.tasks[t].cancelled
    case _ => true
  }

  ghost predicate Superseded(s: State, t: nat) {
    exists u :: t < u < |s.tasks| && s.tasks[u].id == s.tasks[t].id
  }

  /** A request that is pending, may be answered and has not been cancelled. */
  predicate Outstanding(s: State, t: nat) {
    && t < |s.tasks| && Pending(s.tasks[t].phase) && !s.tasks[t].cancelled && s.tasks[t].id.Some?
    && s.loop != Registering(t)
  }

  /** A pending request nobody has cancelled can be cancelled by its id, unless a later request
      uses that id too. */
  ghost predicate PendingRegistered(s: State) {
    forall t: nat :: Outstanding(s, t) ==>
      (s.tasks[t].id.value in s.inFlight && s.inFlight[s.tasks[t].id.value] == t) || Superseded(s, t)
  }

  function AnswersTo(sent: seq<Message>, t: nat): nat {
    if sent == [] then 0
    else AnswersTo(sent[..|sent| - 1], t) + (if sent[|sent| - 1] == Answer(t) then 1 else 0)
  }

  predicate Answered(s: State, t: nat) {
    t < |s.tasks| && s.tasks[t].phase.Done? && s.tasks[t].answers
  }

  /** A task has answered once if it is done and its request wants an answer, and otherwise not. */
  ghost predicate AnswersRight(s: State) {
    forall t: nat :: AnswersTo(s.sent, t) == if Answered(s, t) then 1 else 0
  }

  ghost predicate AbortsAreCancellations(s: State) {
    forall t :: 0 <= t < |s.tasks| && s.tasks[t].phase.Aborted? ==> s.tasks[t].cancelled
  }

  ghost predicate Invariant(s: State) {
    EntriesLive(s) && LoopHolds(s) && PendingRegistered(s) && AnswersRight(s) && AbortsAreCancellations(s)
  }

  lemma EntriesStep(s: State, e: Event)
    requires EntriesLive(s) && LoopHolds(s)
    ensures EntriesLive(Apply(s, e)) && LoopHolds(Apply(s, e))
  {
  }

  /** Requests keep their ids, and cancelled ones stay cancelled. */
  lemma TasksKeep(s: State, e: Event)
    ensures var s' := Apply(s, e);
      |s.tasks| <= |s'.tasks| && forall t :: 0 <= t < |s.tasks| ==>
        && s'.tasks[t].id == s.tasks[t].id && s'.tasks[t].answers == s.tasks[t].answers
        && (s.tasks[t].cancelled ==> s'.tasks[t].cancelled)
        && (Pending(s'.tasks[t].phase) ==> Pending(s.tasks[t].phase))
  {
  }

  lemma SupersededStays(s: State, e: Event, t: nat)
    requires t < |s.tasks| && Superseded(s, t)
    ensures |s.tasks| <= |Apply(s, e).tasks| && Superseded(Apply(s, e), t)
  {
    TasksKeep(s, e);
    hide Apply;
    var u :| t < u < |s.tasks| && s.tasks[u].id == s.tasks[t].id;
    assert Apply(s, e).tasks[u].id == Apply(s, e).tasks[t].id;
  }

  /** Where an entry can go: overwritten by the task being registered, taken by a cancellation, or
      taken out by its own task. */
  lemma EntryGoes(s: State, e: Event, id: Id)
    requires EntriesLive(s) && LoopHolds(s) && id in s.inFlight
    ensures var s' := Apply(s, e); var t := s.inFlight[id];
      && |s.tasks| <= |s'.tasks|
      && (|| (id in s'.inFlight && s'.inFlight[id] == t)
          || s'.tasks[t].cancelled || !Pending(s'.tasks[t].phase)
          || Superseded(s, t))
  {
    var t := s.inFlight[id];
    if e.Register? && s.loop.Registering? && s.tasks[s.loop.task].id == Some(id) && s.loop.task != t {
      assert t < s.loop.task && s.tasks[s.loop.task].id == s.tasks[t].id;
    }
  }

  lemma PendingStep(s: State, e: Event)
    requires EntriesLive(s) && LoopHolds(s) && PendingRegistered(s)
    ensures PendingRegistered(Apply(s, e))
  {
    var s' := Apply(s, e);
    TasksKeep(s, e);
    forall t: nat | Outstanding(s', t)
      ensures (s'.tasks[t].id.value in s'.inFlight && s'.inFlight[s'.tasks[t].id.value] == t) || Superseded(s', t)
    {
      PendingTaskStep(s, e, t);
    }
  }

  lemma PendingTaskStep(s: State, e: Event, t: nat)
    requires EntriesLive(s) && LoopHolds(s) && PendingRegistered(s)
    requires Outstanding(Apply(s, e), t)
    ensures var s' := Apply(s, e);
      (s'.tasks[t].id.value in s'.inFlight && s'.inFlight[s'.tasks[t].id.value] == t) || Superseded(s', t)
  {
    TasksKeep(s, e);
    if t < |s.tasks| && s.loop != Registering(t) {
      if Superseded(s, t) {
        SupersededStays(s, e, t);
      } else {
        hide Apply, Superseded, LoopHolds;
        EntryGoes(s, e, s.tasks[t].id.value);
      }
    } else if t < |s.tasks| {
      JustRegistered(s, e, t);
    }
  }

  lemma JustRegistered(s: State, e: Event, t: nat)
    requires LoopHolds(s) && s.loop == Registering(t) && Apply(s, e).loop != Registering(t)
    ensures Apply(s, e).inFlight == s.inFlight[s.tasks[t].id.value := t]
  {
  }

  lemma AnswersPush(sent: seq<Message>, m: Message, t: nat)
    ensures AnswersTo(sent + [m], t) == AnswersTo(sent, t) + (if m == Answer(t) then 1 else 0)
  {
    assert (sent + [m])[..|sent|] == sent;
  }

  predicate Answers(s: State, e: Event, t: nat) {
    e == Send(t) && Enabled(s, e) && s.tasks[t].answers
  }

  lemma SentStep(s: State, e: Event, t: nat)
    ensures AnswersTo(Apply(s, e).sent, t) == AnswersTo(s.sent, t) + (if Answers(s, e, t) then 1 else 0)
  {
    hide AnswersTo, Unregistered;
    AnswersPush(s.sent, ParseError, t);
    if e.Send? { AnswersPush(s.sent, Answer(e.task), t); }
  }

  lemma AnsweredStep(s: State, e: Event, t: nat)
    ensures Answered(Apply(s, e), t) <==> Answered(s, t) || Answers(s, e, t)
    ensures !(Answered(s, t) && Answers(s, e, t))
  {
    hide Unregistered;
  }

  lemma AnswersStep(s: State, e: Event, t: nat)
    requires AnswersRight(s)
    ensures AnswersTo(Apply(s, e).sent, t) == if Answered(Apply(s, e), t) then 1 else 0
  {
    assert AnswersTo(s.sent, t) == if Answered(s, t) then 1 else 0;
    hide Apply, AnswersTo, AnswersRight, Answered, Answers;
    SentStep(s, e, t);
    AnsweredStep(s, e, t);
  }

  lemma AbortsStep(s: State, e: Event)
    requires AbortsAreCancellations(s)
    ensures AbortsAreCancellations(Apply(s, e))
  {
  }

  lemma {:induction false} InvariantAlways(events: seq<Event>)
    ensures Invariant(Run(events))
  {
    if events == [] {
      hide EntriesLive, AbortsAreCancellations;
      assert EntriesLive(INITIAL) && AbortsAreCancellations(INITIAL) by { StartsRight(); }
    } else {
      var s, e := Run(events[..|events| - 1]), events[|events| - 1];
      InvariantAlways(events[..|events| - 1]);
      hide Apply, EntriesLive, LoopHolds, PendingRegistered, AbortsAreCancellations, AnswersTo;
      EntriesStep(s, e);
      PendingStep(s, e);
      AbortsStep(s, e);
      forall t: nat ensures AnswersTo(Apply(s, e).sent, t) == if Answered(Apply(s, e), t) then 1 else 0 {
        AnswersStep(s, e, t);
      }
    }
  }

  lemma StartsRight()
    ensures Invariant(INITIAL)
  {
  }

  // ---- the guarantees ----

  /** Over every interleaving of arrivals, completions, reused ids and cancellations: each entry
      names a request with that id that has not unregistered, and no request is answered twice,
      nor one that wants no answer. */
  lemma RegistryAndAnswers(events: seq<Event>, id: Id, t: nat)
    ensures var s := Run(events);
      && (id in s.inFlight ==> s.inFlight[id] < |s.tasks|)
      && (id in s.inFlight ==> s.tasks[s.inFlight[id]].id == Some(id) && Pending(s.tasks[s.inFlight[id]].phase))
      && AnswersTo(s.sent, t) <= 1
      && (AnswersTo(s.sent, t) == 1 ==> t < |s.tasks| && s.tasks[t].answers)
  {
    InvariantAlways(events);
    hide Run, PendingRegistered, LoopHolds, AnswersTo;
  }

  predicate Over(p: Phase) {
    p.Done? || p.Aborted?
  }

  ghost predicate Drained(s: State) {
    s.loop.Draining? && forall t :: 0 <= t < |s.tasks| ==> Over(s.tasks[t].phase)
  }

  /** When `serve` returns the registry is empty, and every request nobody cancelled has exactly
      one answer if it has an id and a string method, and none otherwise. */
  lemma DrainedIsSettled(events: seq<Event>)
    requires Drained(Run(events))
    ensures var s := Run(events);
      && s.inFlight == map[]
      && forall t: nat :: t < |s.tasks| && !s.tasks[t].cancelled ==>
        AnswersTo(s.sent, t) == (if s.tasks[t].answers then 1 else 0)
  {
    InvariantAlways(events);
    var s := Run(events);
    hide Run, PendingRegistered, LoopHolds, AnswersTo;
    assert forall id :: id !in s.inFlight;
    forall t: nat | t < |s.tasks| && !s.tasks[t].cancelled
      ensures AnswersTo(s.sent, t) == (if s.tasks[t].answers then 1 else 0)
    {
      assert Over(s.tasks[t].phase);
    }
  }

  /** A cancellation that arrives while its request is in flight marks the task, takes its entry out, and
      from then on the task may die; nothing else changes. */
  lemma CancelTakes(events: seq<Event>, id: Id)
    requires Run(events).loop.Reading? && id in Run(events).inFlight
    ensures var s := Run(events); var t := s.inFlight[id]; var s' := Run(events + [Cancel(Some(id))]);
      && t < |s.tasks| && s.tasks[t].id == Some(id)
      && s'.tasks == s.tasks[t := s.tasks[t].(cancelled := true)]
      && s'.inFlight == s.inFlight - {id} && s'.loop == s.loop && s'.sent == s.sent
      && (!s.tasks[t].phase.Finishing? ==> Enabled(s', Die(t)))
  {
    InvariantAlways(events);
    assert (events + [Cancel(Some(id))])[..|events|] == events;
    hide Run, Answered, AnswersTo;
  }

  /** Cancelling takes a request by its id: if one is cancelled, a cancellation with its id came. */
  lemma {:induction false} CancelledByItsId(events: seq<Event>, t: nat)
    requires t < |Run(events).tasks| && Run(events).tasks[t].cancelled
    ensures Run(events).tasks[t].id.Some? && Cancel(Run(events).tasks[t].id) in events
  {
    if events != [] {
      var init, e := events[..|events| - 1], events[|events| - 1];
      assert events == init + [e];
      var s := Run(init);
      InvariantAlways(init);
      TasksKeep(s, e);
      hide Run, PendingRegistered, AnswersRight, AbortsAreCancellations;
      if t < |s.tasks| && s.tasks[t].cancelled {
        CancelledByItsId(init, t);
      } else {
        NewlyCancelled(s, e, t);
      }
    }
  }

  lemma NewlyCancelled(s: State, e: Event, t: nat)
    requires EntriesLive(s) && t < |Apply(s, e).tasks| && Apply(s, e).tasks[t].cancelled
    requires !(t < |s.tasks| && s.tasks[t].cancelled)
    ensures t < |s.tasks| && s.tasks[t].id.Some? && e == Cancel(s.tasks[t].id) && Pending(s.tasks[t].phase)
    ensures Apply(s, e).tasks[t].id == s.tasks[t].id
  {
  }

  /** A cancellation that comes after a request has unregistered does not touch it. */
  lemma LateCancelIsHarmless(events: seq<Event>, id: Option<Id>, t: nat)
    requires t < |Run(events).tasks| && !Pending(Run(events).tasks[t].phase)
    ensures |Run(events).tasks| == |Apply(Run(events), Cancel(id)).tasks|
    ensures Apply(Run(events), Cancel(id)).tasks[t] == Run(events).tasks[t]
  {
    InvariantAlways(events);
    hide Run, PendingRegistered, LoopHolds, AnswersRight, AbortsAreCancellations;
  }

  // ---- draining ends ----

  function Left(p: Phase): nat {
    match p
    case Waiting => 4
    case Handling => 3
    case Finishing => 2
    case Answering => 1
    case _ => 0
  }

  function Work(tasks: seq<Task>): nat {
    if tasks == [] then 0 else Work(tasks[..|tasks| - 1]) + Left(tasks[|tasks| - 1].phase)
  }

  lemma {:induction false} WorkAfter(tasks: seq<Task>, t: nat, p: Phase)
    requires t < |tasks|
    ensures Work(tasks[t := tasks[t].(phase := p)]) == Work(tasks) - Left(tasks[t].phase) + Left(p)
  {
    var n := |tasks| - 1;
    var moved := tasks[t := tasks[t].(phase := p)];
    if t < n {
      assert moved[..n] == tasks[..n][t := tasks[..n][t].(phase := p)];
      WorkAfter(tasks[..n], t, p);
    } else {
      assert moved[..n] == tasks[..n];
    }
  }

  /** Once the input is closed, whatever can happen finishes some work, and while any is left
      something can happen: the drain ends, drained. */
  lemma DrainEnds(s: State, e: Event)
    requires s.loop.Draining?
    ensures Enabled(s, e) ==> Apply(s, e).loop.Draining? && Work(Apply(s, e).tasks) < Work(s.tasks)
    ensures !Drained(s) ==> exists f :: Enabled(s, f)
  {
    hide *;
    if Enabled(s, e) { StepLessensWork(s, e); }
    if !Drained(s) { SomeStepIsLeft(s); }
  }

  lemma StepLessensWork(s: State, e: Event)
    requires s.loop.Draining? && Enabled(s, e)
    ensures Apply(s, e).loop.Draining? && Work(Apply(s, e).tasks) < Work(s.tasks)
  {
    match e {
      case Start(t) => WorkAfter(s.tasks, t, Handling);
      case Finish(t) => WorkAfter(s.tasks, t, Finishing);
      case Unregister(t) => WorkAfter(s.tasks, t, Answering);
      case Send(t) => WorkAfter(s.tasks, t, Done);
      case Die(t) => WorkAfter(s.tasks, t, Aborted);
      case _ =>
    }
  }

  lemma SomeStepIsLeft(s: State)
    requires s.loop.Draining? && !Drained(s)
    ensures exists f :: Enabled(s, f)
  {
    var t :| 0 <= t < |s.tasks| && !Over(s.tasks[t].phase);
    match s.tasks[t].phase {
      case Waiting => assert Enabled(s, Start(t));
      case Handling => assert Enabled(s, Finish(t));
      case Finishing => assert Enabled(s, Unregister(t));
      case Answering => assert Enabled(s, Send(t));
      case _ =>
    }
  }
}
