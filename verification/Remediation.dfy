/** Auto-remediation of resource failures (crates/rc-agent/src/engine.rs): polls run
    concurrently, and a claim held across an await decides which of them may submit a retry. */
module Remediation {
  import opened Text

  type TaskId = Str

  type Env = map<Str, Str>

  datatype Slot = Slot(
    firstTaskId: TaskId,
    firstEnv: Env,
    /** `Some([])` marks a claim; it never matches a real task. */
    retryTaskId: Option<TaskId>,
    noRemediate: bool)

  const OOM_KILLED: Str := Ascii("oom_killed")
  const SIGKILL_SUSPECTED_OOM: Str := Ascii("sigkill_suspected_oom")
  const JOBS_KEY: Str := Ascii("CARGO_BUILD_JOBS")
  const JOBS_VALUE: Str := Ascii("2")

  predicate RemediateAllowed(rule: Str) {
    rule == OOM_KILLED || rule == SIGKILL_SUSPECTED_OOM
  }

  /** `plan_remediation`: the second environment, or nothing when the patch changes nothing.
      Every task type answers a resource rule with the same patch. */
  function Plan(firstEnv: Env, rule: Str): (second: Option<Env>)
    ensures second.Some? <==> RemediateAllowed(rule) && !(JOBS_KEY in firstEnv && firstEnv[JOBS_KEY] == JOBS_VALUE)
    ensures second.Some? ==> second.value == firstEnv[JOBS_KEY := JOBS_VALUE] && second.value != firstEnv
  {
    if !RemediateAllowed(rule) then None
    else
      var patched := firstEnv[JOBS_KEY := JOBS_VALUE];
      assert patched[JOBS_KEY] == JOBS_VALUE;
      if patched == firstEnv then None else Some(patched)
  }

  // ---- the mutex-guarded table ----

  type Slots = map<TaskId, Slot>

  predicate Claimable(slots: Slots, task: TaskId) {
    task in slots && !slots[task].noRemediate && slots[task].retryTaskId == None
  }

  function Marked(slots: Slots, task: TaskId): Slots
    requires task in slots
  {
    slots[task := slots[task].(retryTaskId := Some([]))]
  }

  function Released(slots: Slots, task: TaskId): Slots {
    if task in slots && slots[task].retryTaskId == Some([])
    then slots[task := slots[task].(retryTaskId := None)] else slots
  }

  /** Each method is one region under the lock. */
  class RemediationTable {
    var slots: Slots

    constructor ()
      ensures slots == map[]
    {
      slots := map[];
    }

    /** `register_remediate_slot`. */
    method Register(autoRemediate: bool, task: TaskId, firstEnv: Env, noRemediate: bool)
      modifies this
      ensures slots == if autoRemediate && !noRemediate
        then old(slots)[task := Slot(task, firstEnv, None, false)] else old(slots)
    {
      if !autoRemediate || noRemediate {
        return;
      }
      slots := slots[task := Slot(task, firstEnv, None, noRemediate)];
    }

    /** Which first task, if any, `task` is the retry of. */
    method RetryOf(task: TaskId) returns (first: Option<TaskId>)
      ensures first.Some? <==> exists t :: t in slots && slots[t].retryTaskId == Some(task)
      ensures first.Some? ==> exists t ::
        t in slots && slots[t].retryTaskId == Some(task) && slots[t].firstTaskId == first.value
    {
      var left := slots.Keys;
      first := None;
      while left != {}
        invariant left <= slots.Keys
        invariant forall t :: t in slots && t !in left ==> slots[t].retryTaskId != Some(task)
        decreases left
      {
        var t :| t in left;
        if slots[t].retryTaskId == Some(task) {
          return Some(slots[t].firstTaskId);
        }
        left := left - {t};
      }
    }

    /** Take the claim, or learn that there is none to take. */
    method Claim(task: TaskId) returns (slot: Option<Slot>)
      modifies this
      ensures slot.Some? <==> Claimable(old(slots), task)
      ensures slot.Some? <==>
        task in old(slots) && !old(slots)[task].noRemediate && old(slots)[task].retryTaskId == None
      ensures slot.Some? ==> slots == old(slots)[task := old(slots)[task].(retryTaskId := Some([]))]
      ensures slot.Some? ==> slots == Marked(old(slots), task) && slot.value == slots[task]
      ensures slot.None? ==> slots == old(slots)
    {
      if task in slots && !slots[task].noRemediate && slots[task].retryTaskId.None? {
        slots := slots[task := slots[task].(retryTaskId := Some([]))];
        return Some(slots[task]);
      }
      slot := None;
    }

    /** The claim's destructor. */
    method DropClaim(task: TaskId, held: bool)
      modifies this
      ensures slots == if held then Released(old(slots), task) else old(slots)
      ensures held && task in old(slots) && old(slots)[task].retryTaskId == Some([]) ==>
        slots == old(slots)[task := old(slots)[task].(retryTaskId := None)]
      ensures !held || task !in old(slots) || old(slots)[task].retryTaskId != Some([]) ==> slots == old(slots)
    {
      if !held {
        return;
      }
      if task in slots && slots[task].retryTaskId == Some([]) {
        slots := slots[task := slots[task].(retryTaskId := None)];
      }
    }

    /** Record the submitted retry over whatever the slot became meanwhile. */
    method Store(task: TaskId, slot: Slot, retryId: TaskId)
      modifies this
      ensures slots == old(slots)[task := slot.(retryTaskId := Some(retryId))]
    {
      slots := slots[task := slot.(retryTaskId := Some(retryId))];
    }
  }

  // ---- interleavings ----

  /** A poll between taking its claim and giving it up. */
  datatype Attempt = Attempt(task: TaskId, slot: Slot, rule: Str, acked: Option<TaskId>)

  datatype Ack = Ack(task: TaskId, retryId: TaskId, rule: Str, firstEnv: Env, env: Env)

  datatype State = State(
    slots: Slots,
    attempts: map<nat, Attempt>,
    registered: multiset<TaskId>,
    acks: seq<Ack>)

  datatype Event =
    | Register(task: TaskId, firstEnv: Env)
    | Claim(attempt: nat, task: TaskId, rule: Str)
      /** No plan, a failed submit, or the request canceled at an await: the guard drops held. */
    | Abandon(attempt: nat)
    | Acknowledge(attempt: nat, retryId: TaskId)
    | Store(attempt: nat)

  const INITIAL := State(map[], map[], multiset{}, [])

  function Apply(s: State, e: Event): State {
    match e
    case Register(task, firstEnv) =>
      s.(slots := s.slots[task := Slot(task, firstEnv, None, false)],
         registered := s.registered + multiset{task})
    case Claim(a, task, rule) =>
      if a !in s.attempts && RemediateAllowed(rule) && Claimable(s.slots, task) then
        var slots := Marked(s.slots, task);
        s.(slots := slots, attempts := s.attempts[a := Attempt(task, slots[task], rule, None)])
      else s
    case Abandon(a) =>
      if a in s.attempts && s.attempts[a].acked == None then
        s.(slots := Released(s.slots, s.attempts[a].task), attempts := s.attempts - {a})
      else s
    case Acknowledge(a, retryId) =>
      if a in s.attempts && s.attempts[a].acked == None && retryId != [] then
        var at := s.attempts[a];
        var plan := Plan(at.slot.firstEnv, at.rule);
        if plan == None then s
        else s.(attempts := s.attempts[a := at.(acked := Some(retryId))],
                acks := s.acks + [Ack(at.task, retryId, at.rule, at.slot.firstEnv, plan.value)])
      else s
    case Store(a) =>
      if a in s.attempts && s.attempts[a].acked.Some? then
        var at := s.attempts[a];
        s.(slots := s.slots[at.task := at.slot.(retryTaskId := at.acked)], attempts := s.attempts - {a})
      else s
  }

  function Run(events: seq<Event>): State {
    if events == [] then INITIAL
    else Apply(Run(events[..|events| - 1]), events[|events| - 1])
  }

  function AcksOf(acks: seq<Ack>, task: TaskId): nat {
    if acks == [] then 0
    else AcksOf(acks[..|acks| - 1], task) + (if acks[|acks| - 1].task == task then 1 else 0)
  }

  /** Attempts on `task` whose submit is not acknowledged yet. */
  function Pending(s: State, task: TaskId): set<nat> {
    set a | a in s.attempts && s.attempts[a].task == task && s.attempts[a].acked == None
  }

  /** Attempts on `task` acknowledged but not stored yet. */
  function Unstored(s: State, task: TaskId): set<nat> {
    set a | a in s.attempts && s.attempts[a].task == task && s.attempts[a].acked.Some?
  }

  function Open(s: State, task: TaskId): nat {
    if task in s.slots && s.slots[task].retryTaskId == None then 1 else 0
  }

  /** Every registration pays for at most one of: an open slot, a pending submit, a retry. */
  ghost predicate Paid(s: State, task: TaskId) {
    && AcksOf(s.acks, task) + |Pending(s, task)| + Open(s, task) <= s.registered[task]
    && |Unstored(s, task)| <= AcksOf(s.acks, task)
  }

  /** A claim mark has a live guard, and a retry is a real id. */
  ghost predicate Guarded(s: State) {
    && (forall t :: t in s.slots && s.slots[t].retryTaskId == Some([]) ==>
          exists a :: a in s.attempts && s.attempts[a].task == t)
    && (forall a :: a in s.attempts ==> s.attempts[a].acked != Some([]) && !s.attempts[a].slot.noRemediate)
    && (forall t :: t in s.slots ==> !s.slots[t].noRemediate)
  }

  lemma ClaimMoves(s: State, a: nat, t: TaskId, rule: Str, task: TaskId)
    requires Apply(s, Claim(a, t, rule)) != s
    ensures var s' := Apply(s, Claim(a, t, rule));
      && s'.acks == s.acks && s'.registered == s.registered && a !in Pending(s, task)
      && Unstored(s', task) == Unstored(s, task)
      && Pending(s', task) == Pending(s, task) + (if t == task then {a} else {})
      && Open(s', task) == (if t == task then 0 else Open(s, task)) && (t == task ==> Open(s, task) == 1)
  {
    hide RemediateAllowed, AcksOf;
  }

  lemma PaidClaim(s: State, a: nat, t: TaskId, rule: Str, task: TaskId)
    requires Paid(s, task)
    ensures Paid(Apply(s, Claim(a, t, rule)), task)
  {
    if Apply(s, Claim(a, t, rule)) != s {
      ClaimMoves(s, a, t, rule, task);
      hide Apply, AcksOf, Pending, Unstored, Open;
    }
  }

  lemma AbandonMoves(s: State, a: nat, task: TaskId)
    requires Apply(s, Abandon(a)) != s
    ensures a in s.attempts && Apply(s, Abandon(a)).acks == s.acks && Apply(s, Abandon(a)).registered == s.registered
    ensures Unstored(Apply(s, Abandon(a)), task) == Unstored(s, task)
    ensures Pending(Apply(s, Abandon(a)), task) == Pending(s, task) - {a}
    ensures a in Pending(s, task) <==> s.attempts[a].task == task
  {
    hide AcksOf;
  }

  lemma AbandonOpens(s: State, a: nat, task: TaskId)
    ensures Open(Apply(s, Abandon(a)), task) <= Open(s, task) + 1
    ensures a in s.attempts && s.attempts[a].task != task ==> Open(Apply(s, Abandon(a)), task) == Open(s, task)
  {
  }

  lemma PaidAbandon(s: State, a: nat, task: TaskId)
    requires Paid(s, task)
    ensures Paid(Apply(s, Abandon(a)), task)
  {
    if Apply(s, Abandon(a)) != s {
      AbandonMoves(s, a, task);
      AbandonOpens(s, a, task);
      hide Apply, AcksOf, Pending, Unstored, Open;
      Removed(Pending(s, task), a);
    }
  }

  lemma Removed(all: set<nat>, a: nat)
    ensures |all - {a}| == if a in all then |all| - 1 else |all|
  {
    assert a !in all ==> all - {a} == all;
  }

  lemma AcknowledgeMoves(s: State, a: nat, id: TaskId, task: TaskId)
    requires Apply(s, Acknowledge(a, id)) != s
    ensures var s' := Apply(s, Acknowledge(a, id));
      && a in s.attempts && s'.slots == s.slots && s'.registered == s.registered
      && |s'.acks| == |s.acks| + 1 && s'.acks[..|s.acks|] == s.acks && s'.acks[|s.acks|].task == s.attempts[a].task
      && Pending(s', task) == Pending(s, task) - {a}
      && Unstored(s', task) == Unstored(s, task) + (if s.attempts[a].task == task then {a} else {})
      && (a in Pending(s, task) <==> s.attempts[a].task == task)
  {
    hide AcksOf, Plan;
  }

  lemma PaidAcknowledge(s: State, a: nat, id: TaskId, task: TaskId)
    requires Paid(s, task)
    ensures Paid(Apply(s, Acknowledge(a, id)), task)
  {
    if Apply(s, Acknowledge(a, id)) != s {
      AcknowledgeMoves(s, a, id, task);
      hide Apply, Pending, Unstored;
      Removed(Pending(s, task), a);
    }
  }

  lemma PaidStore(s: State, a: nat, task: TaskId)
    requires Paid(s, task)
    ensures Paid(Apply(s, Store(a)), task)
  {
    var s' := Apply(s, Store(a));
    assert Pending(s', task) == Pending(s, task);
    if s' != s && s.attempts[a].task == task {
      assert Unstored(s', task) == Unstored(s, task) - {a};
    } else {
      assert Unstored(s', task) == Unstored(s, task);
    }
  }

  lemma PaidStep(s: State, e: Event, task: TaskId)
    requires Paid(s, task)
    ensures Paid(Apply(s, e), task)
  {
    match e {
      case Register(t, env) =>
        var s' := Apply(s, e);
        assert Pending(s', task) == Pending(s, task) && Unstored(s', task) == Unstored(s, task);
      case Claim(a, t, rule) => PaidClaim(s, a, t, rule, task);
      case Abandon(a) => PaidAbandon(s, a, task);
      case Acknowledge(a, id) => PaidAcknowledge(s, a, id, task);
      case Store(a) => PaidStore(s, a, task);
    }
  }

  lemma {:induction false} PaidAlways(events: seq<Event>, task: TaskId)
    ensures Paid(Run(events), task)
  {
    if events == [] {
      assert Pending(INITIAL, task) == {} && Unstored(INITIAL, task) == {};
    } else {
      PaidAlways(events[..|events| - 1], task);
      PaidStep(Run(events[..|events| - 1]), events[|events| - 1], task);
    }
  }

  function Registrations(events: seq<Event>, task: TaskId): nat {
    if events == [] then 0
    else
      var last := events[|events| - 1];
      Registrations(events[..|events| - 1], task) + (if last.Register? && last.task == task then 1 else 0)
  }

  lemma {:induction false} RegisteredCounts(events: seq<Event>, task: TaskId)
    ensures Run(events).registered[task] == Registrations(events, task)
  {
    if events != [] { RegisteredCounts(events[..|events| - 1], task); }
  }

  /** Over every interleaving, a task never gets more acknowledged retries than it had
      registrations: one for the ordinary task, and none for a retry task, which is never
      registered. */
  lemma RetriesWithinRegistrations(events: seq<Event>, task: TaskId)
    ensures AcksOf(Run(events).acks, task) <= Registrations(events, task)
  {
    PaidAlways(events, task);
    RegisteredCounts(events, task);
  }

  lemma RunOfMore(events: seq<Event>, e: Event)
    ensures Run(events + [e]) == Apply(Run(events), e)
  {
    assert (events + [e])[..|events|] == events;
  }

  lemma RunOfOne(e: Event)
    ensures Run([e]) == Apply(INITIAL, e) && INITIAL.attempts == map[]
    ensures forall task :: AcksOf(INITIAL.acks, task) == 0
  {
    hide Apply;
    assert [e][..0] == [];
  }

  lemma AcksOfMore(acks: seq<Ack>, ack: Ack)
    ensures AcksOf(acks + [ack], ack.task) == AcksOf(acks, ack.task) + 1
  {
    assert (acks + [ack])[..|acks|] == acks;
  }

  /** A poll of `task` that holds a claim from a registration with an empty environment. */
  predicate Claims(s: State, a: nat, task: TaskId) {
    a in s.attempts && s.attempts[a].task == task && s.attempts[a].acked == None && s.attempts[a].rule == OOM_KILLED
    && s.attempts[a].slot.firstEnv == map[]
  }

  /** Registering a task opens its slot, so one more poll may claim it. */
  lemma RegisteredThenClaimed(s: State, a: nat, task: TaskId)
    requires a !in s.attempts
    ensures var s' := Apply(Apply(s, Register(task, map[])), Claim(a, task, OOM_KILLED));
      && Claims(s', a, task) && s'.acks == s.acks
      && (forall b :: b != a && b !in s.attempts ==> b !in s'.attempts)
      && forall b :: Claims(s, b, task) ==> Claims(s', b, task)
  {
  }

  lemma ClaimAcknowledged(s: State, a: nat, task: TaskId, retryId: TaskId)
    requires Claims(s, a, task) && retryId != []
    ensures var s' := Apply(s, Acknowledge(a, retryId));
      && AcksOf(s'.acks, task) == AcksOf(s.acks, task) + 1
      && forall b :: b != a && Claims(s, b, task) ==> Claims(s', b, task)
  {
    var ack := Ack(task, retryId, OOM_KILLED, map[], map[JOBS_KEY := JOBS_VALUE]);
    AcksOfMore(s.acks, ack);
    hide AcksOf;
    assert Apply(s, Acknowledge(a, retryId)).acks == s.acks + [ack];
  }

  /** The bound is tight: registering a task again while its first claim is in flight lets a
      second retry through. */
  lemma SecondRegistrationAllowsSecondRetry(task: TaskId)
    ensures var register := Register(task, map[]);
      var events := [register] + [Claim(0, task, OOM_KILLED)] + [register] + [Claim(1, task, OOM_KILLED)]
                    + [Acknowledge(0, [1])] + [Acknowledge(1, [2])];
      AcksOf(Run(events).acks, task) == 2
  {
    var e, f, g := Register(task, map[]), Claim(0, task, OOM_KILLED), Claim(1, task, OOM_KILLED);
    var x, y := Acknowledge(0, [1]), Acknowledge(1, [2]);
    RunOfOne(e);
    hide *;
    RunOfMore([e], f);
    RunOfMore([e] + [f], e);
    RunOfMore([e] + [f] + [e], g);
    RunOfMore([e] + [f] + [e] + [g], x);
    RunOfMore([e] + [f] + [e] + [g] + [x], y);
    var s := Run([e] + [f] + [e] + [g]);
    RegisteredThenClaimed(INITIAL, 0, task);
    RegisteredThenClaimed(Run([e] + [f]), 1, task);
    ClaimAcknowledged(s, 0, task, [1]);
    ClaimAcknowledged(Apply(s, x), 1, task, [2]);
  }

  /** Every acknowledged retry answers a resource rule and runs in an environment that differs
      from the first one in exactly the patched key. */
  lemma {:induction false} RetriesAreWorthwhile(events: seq<Event>)
    ensures forall k :: 0 <= k < |Run(events).acks| ==>
      var ack := Run(events).acks[k];
      && RemediateAllowed(ack.rule) && ack.retryId != []
      && ack.env == ack.firstEnv[JOBS_KEY := JOBS_VALUE] && ack.env != ack.firstEnv
  {
    if events != [] { RetriesAreWorthwhile(events[..|events| - 1]); }
  }

  // ---- what the table says of a retry ----

  /** A slot that names a retry names one that was acknowledged for its own task, and every slot is
      filed under its first task. */
  ghost predicate NamesItsRetry(s: State) {
    && (forall t :: t in s.slots ==> s.slots[t].firstTaskId == t)
    && (forall t :: t in s.slots && s.slots[t].retryTaskId.Some? && s.slots[t].retryTaskId.value != [] ==>
        AckedFor(s.acks, t, s.slots[t].retryTaskId.value))
    && (forall a :: a in s.attempts ==> s.attempts[a].slot.firstTaskId == s.attempts[a].task)
    && (forall a :: a in s.attempts && s.attempts[a].acked.Some? ==>
        s.attempts[a].acked.value != [] && AckedFor(s.acks, s.attempts[a].task, s.attempts[a].acked.value))
  }

  ghost predicate AckedFor(acks: seq<Ack>, task: TaskId, retryId: TaskId) {
    exists k :: 0 <= k < |acks| && acks[k].task == task && acks[k].retryId == retryId
  }

  lemma AckedForMore(acks: seq<Ack>, ack: Ack)
    ensures forall t, id :: AckedFor(acks, t, id) ==> AckedFor(acks + [ack], t, id)
    ensures AckedFor(acks + [ack], ack.task, ack.retryId)
  {
    assert (acks + [ack])[|acks|] == ack;
    forall t, id | AckedFor(acks, t, id) ensures AckedFor(acks + [ack], t, id) {
      var k :| 0 <= k < |acks| && acks[k].task == t && acks[k].retryId == id;
      assert (acks + [ack])[k] == acks[k];
    }
  }

  lemma NamesStep(s: State, e: Event)
    requires NamesItsRetry(s)
    ensures NamesItsRetry(Apply(s, e))
  {
    hide Plan, RemediateAllowed, AckedFor;
    if e.Acknowledge? && Apply(s, e) != s {
      AckedForMore(s.acks, Apply(s, e).acks[|s.acks|]);
    }
  }

  /** Over every interleaving, whoever looks up a stored retry finds the task it was acknowledged for. */
  lemma {:induction false} RetriesAreFiled(events: seq<Event>)
    ensures NamesItsRetry(Run(events))
  {
    hide Apply, NamesItsRetry;
    if events == [] {
      NothingFiled();
    } else {
      RetriesAreFiled(events[..|events| - 1]);
      NamesStep(Run(events[..|events| - 1]), events[|events| - 1]);
    }
  }

  lemma NothingFiled()
    ensures NamesItsRetry(INITIAL)
  {
  }

  /** Storing settles the slot: it names the acknowledged retry and is not claimable again. */
  lemma StoredIsSettled(s: State, a: nat)
    requires a in s.attempts && s.attempts[a].acked.Some?
    ensures var t := s.attempts[a].task; var s' := Apply(s, Store(a));
      && t in s'.slots && s'.slots[t] == s.attempts[a].slot.(retryTaskId := s.attempts[a].acked)
      && !Claimable(s'.slots, t) && a !in s'.attempts && s'.acks == s.acks
      && forall u :: u != t ==> (u in s'.slots <==> u in s.slots) && (u in s.slots ==> s'.slots[u] == s.slots[u])
  {
  }

  // ---- claim marks ----

  lemma GuardedStep(s: State, e: Event)
    requires Guarded(s)
    ensures Guarded(Apply(s, e))
  {
    hide Plan;
    var s' := Apply(s, e);
    forall t | t in s'.slots && s'.slots[t].retryTaskId == Some([])
      ensures exists a :: a in s'.attempts && s'.attempts[a].task == t
    {
      if e.Claim? && s' != s && t == e.task {
        assert e.attempt in s'.attempts;
      } else {
        assert t in s.slots && s.slots[t].retryTaskId == Some([]);
        var a :| a in s.attempts && s.attempts[a].task == t;
        assert a in s'.attempts && s'.attempts[a].task == t;
      }
    }
  }

  // ---- a retry that somebody registers ----

  /** Every environment the table and the polls hold was registered. */
  ghost predicate FromRegistrations(s: State, events: seq<Event>) {
    && (forall t :: t in s.slots ==> Register(t, s.slots[t].firstEnv) in events)
    && (forall a :: a in s.attempts ==> Register(s.attempts[a].task, s.attempts[a].slot.firstEnv) in events)
    && (forall ack :: ack in s.acks ==> Register(ack.task, ack.firstEnv) in events)
  }

  lemma FromRegistrationsStep(s: State, events: seq<Event>, e: Event)
    requires FromRegistrations(s, events)
    ensures FromRegistrations(Apply(s, e), events + [e])
  {
    hide RemediateAllowed, Plan;
    forall x | x in events ensures x in events + [e] {
    }
    assert e in events + [e];
  }

  lemma {:induction false} AllFromRegistrations(events: seq<Event>)
    ensures FromRegistrations(Run(events), events)
  {
    if events != [] {
      var n := |events| - 1;
      AllFromRegistrations(events[..n]);
      FromRegistrationsStep(Run(events[..n]), events[..n], events[n]);
      assert events == events[..n] + [events[n]];
    }
  }

  /** Whoever registers the retry, by attaching to it, does so with the environment it was
      acknowledged for. */
  ghost predicate CarriesItsEnv(events: seq<Event>, retry: TaskId) {
    forall ack, env :: ack in Run(events).acks && ack.retryId == retry && Register(retry, env) in events ==>
      env == ack.env
  }

  lemma {:induction false} AcksOfOthers(acks: seq<Ack>, task: TaskId)
    requires forall ack :: ack in acks ==> ack.task != task
    ensures AcksOf(acks, task) == 0
  {
    if acks != [] {
      AcksOfOthers(acks[..|acks| - 1], task);
      assert acks[|acks| - 1] in acks;
    }
  }

  /** A retry never spawns another, registered or not: patching its environment again would change
      nothing. */
  lemma RetriesNeverSpawn(events: seq<Event>, retry: TaskId)
    requires CarriesItsEnv(events, retry) && exists ack :: ack in Run(events).acks && ack.retryId == retry
    ensures AcksOf(Run(events).acks, retry) == 0
  {
    var acks := Run(events).acks;
    var first :| first in acks && first.retryId == retry;
    AllFromRegistrations(events);
    RetriesAreWorthwhile(events);
    forall ack | ack in acks ensures ack.task != retry {
      var k :| 0 <= k < |acks| && acks[k] == ack;
      var j :| 0 <= j < |acks| && acks[j] == first;
      assert Register(ack.task, ack.firstEnv) in events;
    }
    AcksOfOthers(acks, retry);
  }

  /** Over every interleaving, a claim mark exists only while a poll still holds the claim:
      with no poll under way, every slot is open or settled. */
  lemma {:induction false} MarksNeverLeak(events: seq<Event>)
    ensures Guarded(Run(events))
    ensures Run(events).attempts == map[] ==>
      forall t :: t in Run(events).slots ==> Run(events).slots[t].retryTaskId != Some([])
  {
    if events != [] {
      MarksNeverLeak(events[..|events| - 1]);
      GuardedStep(Run(events[..|events| - 1]), events[|events| - 1]);
    }
  }

  /** While the only registration of a task is claimed by a pending poll, the mark is there, so
      no other poll can claim: the mark is what `Released` will find. */
  ghost predicate Exclusive(s: State) {
    forall a :: a in s.attempts && s.attempts[a].acked == None && s.registered[s.attempts[a].task] == 1 ==>
      var t := s.attempts[a].task;
      t in s.slots && s.slots[t].retryTaskId == Some([])
  }

  lemma ExclusiveStep(s: State, e: Event)
    requires Exclusive(s) && forall t :: Paid(s, t)
    ensures Exclusive(Apply(s, e))
  {
    var s' := Apply(s, e);
    forall a | a in s'.attempts && s'.attempts[a].acked == None && s'.registered[s'.attempts[a].task] == 1
      ensures s'.attempts[a].task in s'.slots && s'.slots[s'.attempts[a].task].retryTaskId == Some([])
    {
      if a in s.attempts {
        assert Paid(s, s'.attempts[a].task);
        StillMarked(s, e, a);
      }
    }
  }

  lemma StillMarked(s: State, e: Event, a: nat)
    requires Exclusive(s) && a in s.attempts && Paid(s, s.attempts[a].task)
    requires var s' := Apply(s, e);
      a in s'.attempts && s'.attempts[a].acked == None && s'.registered[s.attempts[a].task] == 1
    ensures var t := s.attempts[a].task;
      t in Apply(s, e).slots && Apply(s, e).slots[t].retryTaskId == Some([])
  {
    hide Plan, RemediateAllowed, Paid;
    OnlyAttempt(s, a);
  }

  /** The one registration is used up: no other poll holds a claim on the task. */
  lemma OnlyAttempt(s: State, a: nat)
    requires a in s.attempts && s.attempts[a].acked == None && Paid(s, s.attempts[a].task)
    ensures s.registered[s.attempts[a].task] >= 1
    ensures s.registered[s.attempts[a].task] == 1 ==>
      forall b :: b in s.attempts && s.attempts[b].task == s.attempts[a].task ==> b == a
  {
    var t := s.attempts[a].task;
    assert a in Pending(s, t);
    OnlyMember(a, Pending(s, t));
    assert s.registered[t] == 1 ==> |Unstored(s, t)| == 0;
    assert forall b :: b in s.attempts && s.attempts[b].task == t ==> b in Pending(s, t) + Unstored(s, t);
  }

  lemma OnlyMember(a: nat, s: set<nat>)
    requires a in s
    ensures |s| >= 1
    ensures |s| == 1 ==> s == {a}
  {
    assert |s - {a}| == |s| - 1;
    assert |s| == 1 ==> s - {a} == {};
  }

  lemma {:induction false} ExclusiveAlways(events: seq<Event>)
    ensures Exclusive(Run(events))
  {
    if events != [] {
      var before := events[..|events| - 1];
      ExclusiveAlways(before);
      forall t ensures Paid(Run(before), t) { PaidAlways(before, t); }
      ExclusiveStep(Run(before), events[|events| - 1]);
    }
  }

  /** A poll that gives up leaves a task registered once open for a later poll, and no other
      poll was pending on it. */
  lemma AbandonReopens(events: seq<Event>, a: nat)
    requires a in Run(events).attempts && Run(events).attempts[a].acked == None
    requires Registrations(events, Run(events).attempts[a].task) == 1
    ensures var t := Run(events).attempts[a].task;
      && Pending(Run(events), t) == {a}
      && Claimable(Run(events + [Abandon(a)]).slots, t)
  {
    var s := Run(events);
    var t := s.attempts[a].task;
    RegisteredCounts(events, t);
    ExclusiveAlways(events);
    MarksNeverLeak(events);
    PaidAlways(events, t);
    OnlyMember(a, Pending(s, t));
    assert (events + [Abandon(a)])[..|events|] == events;
    assert Run(events + [Abandon(a)]) == Apply(s, Abandon(a));
  }
}
