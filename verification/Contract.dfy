/** The server's own view of a submitted profile (crates/rc-core/src/contract.rs). */
module Contract {
  import opened Text
  import opened Sorting
  import opened Profile

  const MAX_REQUEST_ENV: nat := 32
  const MAX_VALUE: nat := 4 * 1024
  const SCCACHE_PREFIX: Str := Ascii("SCCACHE_")
  const UNDERSCORE: byte := 95

  const REQUEST_ENV_DENYLIST: seq<Str> := [
    Ascii("PATH"), Ascii("HOME"), Ascii("RUSTC_WRAPPER"), Ascii("CARGO_HOME"), Ascii("RUSTUP_HOME"),
    Ascii("CARGO_TARGET_DIR")]

  const TEST_DEFAULT_ENV: seq<Field> := [
    (Ascii("CARGO_PROFILE_TEST_DEBUG"), Ascii("0")), (Ascii("CARGO_PROFILE_DEV_DEBUG"), Ascii("0"))]

  /** `default_env` of the contract for a task. */
  function DefaultEnv(task: TaskType): seq<Field> {
    if task == Test then TEST_DEFAULT_ENV else []
  }

  predicate Denied(key: Str) {
    key in REQUEST_ENV_DENYLIST || SCCACHE_PREFIX <= key
  }

  predicate Letter(b: byte) {
    65 <= b <= 90 || 97 <= b <= 122
  }

  predicate ValidKey(key: Str) {
    && key != []
    && (Letter(key[0]) || key[0] == UNDERSCORE)
    && forall b :: b in key[1..] ==> Letter(b) || 48 <= b <= 57 || b == UNDERSCORE
  }

  datatype EnvError = TooManyEntries(count: nat) | InvalidKey(key: Str) | DeniedKey(key: Str) | ValueTooLong(key: Str)

  // ---- the effective environment ----

  /** Later pairs win. */
  function FromPairs(pairs: seq<Field>): map<Str, Str> {
    if pairs == [] then map[] else FromPairs(pairs[..|pairs| - 1])[pairs[|pairs| - 1].0 := pairs[|pairs| - 1].1]
  }

  /** What is wrong with one requested variable. */
  function FaultOf(key: Str, value: Str): Option<EnvError> {
    if !ValidKey(key) then Some(InvalidKey(key))
    else if Denied(key) then Some(DeniedKey(key))
    else if |value| > MAX_VALUE then Some(ValueTooLong(key))
    else None
  }

  /** The first fault, in key order. */
  ghost function FirstFault(keys: seq<Str>, request: map<Str, Str>): Option<EnvError>
    requires forall k :: k in keys ==> k in request
  {
    if keys == [] then None
    else if FaultOf(keys[0], request[keys[0]]).Some? then FaultOf(keys[0], request[keys[0]])
    else FirstFault(keys[1..], request)
  }

  ghost function EffectiveEnv(adapter: map<Str, Str>, defaults: seq<Field>, profile: map<Str, Str>,
                              request: map<Str, Str>)
    : Result<map<Str, Str>, EnvError>
  {
    if |request| > MAX_REQUEST_ENV then Err(TooManyEntries(|request|))
    else if FirstFault(OrderedKeys(request.Keys), request).Some? then
      Err(FirstFault(OrderedKeys(request.Keys), request).value)
    else Ok(adapter + FromPairs(defaults) + profile + request)
  }

  // ---- what every variable gets ----

  /** The last pair with this key. */
  ghost predicate LastAt(pairs: seq<Field>, key: Str, i: nat) {
    i < |pairs| && pairs[i].0 == key && forall j :: i < j < |pairs| ==> pairs[j].0 != key
  }

  ghost predicate Named(pairs: seq<Field>, key: Str) {
    exists i :: 0 <= i < |pairs| && pairs[i].0 == key
  }

  /** `key` has its value from the highest layer that names it, and no value when none does. */
  ghost predicate Decided(env: map<Str, Str>, adapter: map<Str, Str>, defaults: seq<Field>, profile: map<Str, Str>,
                          request: map<Str, Str>, key: Str) {
    && (key in env <==> key in adapter || Named(defaults, key) || key in profile || key in request)
    && (key in request ==> key in env && env[key] == request[key])
    && (key !in request && key in profile ==> key in env && env[key] == profile[key])
    && (key !in request && key !in profile ==>
        forall i: nat :: LastAt(defaults, key, i) ==> key in env && env[key] == defaults[i].1)
    && (key !in request && key !in profile && !Named(defaults, key) && key in adapter ==>
        key in env && env[key] == adapter[key])
  }

  /** Every variable has the value its layers give it. */
  ghost predicate Layered(env: map<Str, Str>, adapter: map<Str, Str>, defaults: seq<Field>, profile: map<Str, Str>,
                          request: map<Str, Str>) {
    forall key :: Decided(env, adapter, defaults, profile, request, key)
  }

  /** Among pairs with one key the last wins, and no other key appears. */
  lemma {:induction false} LastPairWins(pairs: seq<Field>, key: Str)
    ensures key in FromPairs(pairs) <==> Named(pairs, key)
    ensures forall i: nat :: LastAt(pairs, key, i) ==> key in FromPairs(pairs) && FromPairs(pairs)[key] == pairs[i].1
  {
    if pairs != [] {
      var rest := pairs[..|pairs| - 1];
      LastPairWins(rest, key);
      var last := pairs[|pairs| - 1];
      if last.0 != key {
        assert forall i :: 0 <= i < |rest| ==> rest[i] == pairs[i];
        assert forall i: nat :: LastAt(pairs, key, i) ==> LastAt(rest, key, i);
      }
    }
  }

  lemma SumDecides(adapter: map<Str, Str>, defaults: seq<Field>, profile: map<Str, Str>, request: map<Str, Str>,
                   key: Str)
    ensures Decided(adapter + FromPairs(defaults) + profile + request, adapter, defaults, profile, request, key)
  {
    LastPairWins(defaults, key);
    hide Named, FromPairs;
    var lower := adapter + FromPairs(defaults);
    assert key in lower <==> key in adapter || Named(defaults, key);
    assert key in FromPairs(defaults) ==> lower[key] == FromPairs(defaults)[key];
    assert forall i: nat :: LastAt(defaults, key, i) ==> key in lower && lower[key] == defaults[i].1;
  }

  predicate Allowed(key: Str, value: Str) {
    ValidKey(key) && !Denied(key) && |value| <= 4096
  }

  /** `key` is the first variable at fault, in byte order, and `error` says why. */
  ghost predicate FirstAtFault(request: map<Str, Str>, key: Str, error: EnvError) {
    && key in request && !Allowed(key, request[key])
    && (forall k :: k in request && k != key && Leq(k, key) ==> Allowed(k, request[k]))
    && error == (
      if !ValidKey(key) then InvalidKey(key) else if Denied(key) then DeniedKey(key) else ValueTooLong(key))
  }

  lemma {:induction false} FirstFaultIsFirst(keys: seq<Str>, request: map<Str, Str>) returns (i: nat)
    requires forall k :: k in keys ==> k in request
    requires FirstFault(keys, request).Some?
    ensures i < |keys| && FirstFault(keys, request) == FaultOf(keys[i], request[keys[i]])
    ensures forall j :: 0 <= j < i ==> FaultOf(keys[j], request[keys[j]]).None?
  {
    hide FaultOf;
    if FaultOf(keys[0], request[keys[0]]).Some? {
      i := 0;
    } else {
      i := FirstFaultIsFirst(keys[1..], request);
      i := i + 1;
    }
  }

  lemma FaultExactly(key: Str, value: Str)
    ensures FaultOf(key, value).None? <==> Allowed(key, value)
    ensures FaultOf(key, value).Some? ==>
      FaultOf(key, value).value == (
        if !ValidKey(key) then InvalidKey(key) else if Denied(key) then DeniedKey(key) else ValueTooLong(key))
  {
    hide ValidKey, Denied;
  }

  /** A refused request is refused for its first faulty variable. */
  lemma RefusedForTheFirst(request: map<Str, Str>) returns (key: Str)
    requires FirstFault(OrderedKeys(request.Keys), request).Some?
    ensures FirstAtFault(request, key, FirstFault(OrderedKeys(request.Keys), request).value)
  {
    var keys := OrderedKeys(request.Keys);
    var i := FirstFaultIsFirst(keys, request);
    hide ValidKey, Denied, Allowed, FaultOf, FirstFault, OrderedKeys, Leq;
    key := keys[i];
    forall k | k in request && k != key && Leq(k, key) ensures Allowed(k, request[k]) {
      var j :| 0 <= j < |keys| && keys[j] == k;
      if i < j {
        LeqAntisymmetric(k, key);
      }
      FaultExactly(k, request[k]);
    }
    FaultExactly(key, request[key]);
  }

  lemma AcceptedExactly(request: map<Str, Str>)
    ensures FirstFault(OrderedKeys(request.Keys), request).None? <==>
      forall k :: k in request ==> Allowed(k, request[k])
  {
    NoFaultMeansAllowed(OrderedKeys(request.Keys), request);
    hide ValidKey, Denied, Allowed, FaultOf, FirstFault, OrderedKeys, Leq;
    forall k | k in request ensures FaultOf(k, request[k]).None? <==> Allowed(k, request[k]) {
      FaultExactly(k, request[k]);
    }
  }

  /** The environment of an accepted request, variable by variable, and the reason of a refused one. */
  lemma LayersDecide(adapter: map<Str, Str>, defaults: seq<Field>, profile: map<Str, Str>, request: map<Str, Str>)
    ensures var r := EffectiveEnv(adapter, defaults, profile, request);
      && (r.Ok? ==> Layered(r.value, adapter, defaults, profile, request))
      && (r.Ok? <==> |request| <= 32 && forall k :: k in request ==> Allowed(k, request[k]))
      && (|request| > 32 ==> r == Err(TooManyEntries(|request|)))
      && (r.Err? && |request| <= 32 ==> exists key :: FirstAtFault(request, key, r.error))
  {
    hide FirstFault, Decided, Allowed, FirstAtFault, OrderedKeys;
    var r := EffectiveEnv(adapter, defaults, profile, request);
    AcceptedExactly(request);
    if r.Ok? {
      forall key ensures Decided(r.value, adapter, defaults, profile, request, key) {
        SumDecides(adapter, defaults, profile, request, key);
      }
    } else if |request| <= 32 {
      var key := RefusedForTheFirst(request);
    }
  }

  // ---- the loops ----

  /** `base` with the entries of `m`, except those still `left`. */
  ghost function Inserted<K, V>(base: map<K, V>, m: map<K, V>, left: set<K>): map<K, V> {
    base + (m - left)
  }

  lemma InsertedAll<K, V>(base: map<K, V>, m: map<K, V>)
    ensures Inserted(base, m, m.Keys) == base
    ensures Inserted(base, m, {}) == base + m
  {
    assert m - {} == m;
  }

  lemma InsertedNext<K, V>(base: map<K, V>, m: map<K, V>, left: set<K>, k: K)
    requires k in left && left <= m.Keys
    ensures Inserted(base, m, left)[k := m[k]] == Inserted(base, m, left - {k})
  {
  }

  method InsertAll<K(==), V>(base: map<K, V>, m: map<K, V>) returns (out: map<K, V>)
    ensures out == base + m
  {
    hide Inserted;
    InsertedAll(base, m);
    out := base;
    var left := m.Keys;
    while left != {}
      invariant left <= m.Keys
      invariant out == Inserted(base, m, left)
      decreases |left|
    {
      var k :| k in left;
      InsertedNext(base, m, left, k);
      left := left - {k};
      out := out[k := m[k]];
    }
  }

  lemma FirstFaultStep(keys: seq<Str>, i: nat, request: map<Str, Str>)
    requires i < |keys| && forall k :: k in keys ==> k in request
    ensures forall k :: k in keys[i..] ==> k in request
    ensures forall k :: k in keys[i + 1..] ==> k in request
    ensures FirstFault(keys[i..], request) ==
      if FaultOf(keys[i], request[keys[i]]).Some? then FaultOf(keys[i], request[keys[i]])
      else FirstFault(keys[i + 1..], request)
  {
    hide FaultOf;
    assert keys[i..][1..] == keys[i + 1..];
  }

  ghost function From<K>(keys: seq<K>, i: nat): set<K>
    requires i <= |keys|
  {
    set j | i <= j < |keys| :: keys[j]
  }

  lemma Remaining<K>(keys: seq<K>, i: nat)
    requires i < |keys| && forall a, b :: 0 <= a < b < |keys| ==> keys[a] != keys[b]
    ensures From(keys, i + 1) == From(keys, i) - {keys[i]}
    ensures keys[i] in From(keys, i)
  {
  }

  lemma FromEnds<K>(keys: seq<K>)
    ensures From(keys, 0) == set k | k in keys
    ensures From(keys, |keys|) == {}
  {
  }

  lemma NoFaultAtEnd(keys: seq<Str>, request: map<Str, Str>)
    ensures FirstFault(keys[|keys|..], request).None?
  {
  }

  /** The checks, variable by variable in key order, and the last layer. */
  method MergeRequest(base: map<Str, Str>, request: map<Str, Str>) returns (r: Result<map<Str, Str>, EnvError>)
    ensures r == var fault := FirstFault(OrderedKeys(request.Keys), request);
      if fault.Some? then Err(fault.value) else Ok(base + request)
  {
    hide ValidKey, Denied, Inserted, FirstFault, Sorted, From;
    var out := base;
    var keys := SortedKeys(request.Keys);
    ghost var left := request.Keys;
    InsertedAll(base, request);
    assert keys[0..] == keys;
    FromEnds(keys);
    for i := 0 to |keys|
      invariant FirstFault(keys, request) == FirstFault(keys[i..], request)
      invariant left == From(keys, i)
      invariant left <= request.Keys
      invariant out == Inserted(base, request, left)
    {
      var k, v := keys[i], request[keys[i]];
      FirstFaultStep(keys, i, request);
      Remaining(keys, i);
      if !ValidKey(k) {
        return Err(InvalidKey(k));
      }
      if Denied(k) {
        return Err(DeniedKey(k));
      }
      if |v| > MAX_VALUE {
        return Err(ValueTooLong(k));
      }
      InsertedNext(base, request, left, k);
      out := out[k := v];
      left := left - {k};
    }
    NoFaultAtEnd(keys, request);
    return Ok(out);
  }

  /** `resolve_env`. */
  method ResolveEnv(adapter: map<Str, Str>, defaults: seq<Field>, profile: map<Str, Str>, request: map<Str, Str>)
    returns (r: Result<map<Str, Str>, EnvError>)
    ensures r == EffectiveEnv(adapter, defaults, profile, request)
    ensures r.Ok? ==> Layered(r.value, adapter, defaults, profile, request)
    ensures r.Ok? <==> |request| <= 32 && forall k :: k in request ==> Allowed(k, request[k])
    ensures |request| > 32 ==> r == Err(TooManyEntries(|request|))
    ensures r.Err? && |request| <= 32 ==> exists key :: FirstAtFault(request, key, r.error)
  {
    LayersDecide(adapter, defaults, profile, request);
    hide FirstFault, Layered, ValidKey, Denied, FirstAtFault;
    var out := InsertAll(map[], adapter);
    assert map[] + adapter == adapter;
    assert adapter + FromPairs(defaults[..0]) == adapter;
    for i := 0 to |defaults|
      invariant out == adapter + FromPairs(defaults[..i])
    {
      assert defaults[..i + 1][..i] == defaults[..i];
      InsertIntoSum(adapter, FromPairs(defaults[..i]), defaults[i].0, defaults[i].1);
      out := out[defaults[i].0 := defaults[i].1];
    }
    assert defaults[..|defaults|] == defaults;
    out := InsertAll(out, profile);
    if |request| > MAX_REQUEST_ENV {
      return Err(TooManyEntries(|request|));
    }
    r := MergeRequest(out, request);
  }

  lemma InsertIntoSum<K, V>(a: map<K, V>, b: map<K, V>, k: K, v: V)
    ensures (a + b)[k := v] == a + b[k := v]
  {
  }

  lemma LayeredEntry<K, V>(a: map<K, V>, b: map<K, V>, c: map<K, V>, d: map<K, V>, key: K)
    requires key !in d
    ensures Entry(a + b + c + d, key) == Fill(Entry(c, key), Fill(Entry(b, key), Entry(a, key)))
  {
  }

  lemma LayersAbsorb<K, V>(a: map<K, V>, b: map<K, V>, c: map<K, V>)
    ensures map[] + a + (map[] + a + b + c) + c == map[] + a + b + c
  {
  }

  lemma {:induction false} NoFaultMeansAllowed(keys: seq<Str>, request: map<Str, Str>)
    requires forall k :: k in keys ==> k in request
    ensures FirstFault(keys, request).None? <==> forall k :: k in keys ==> FaultOf(k, request[k]).None?
  {
    if keys != [] {
      NoFaultMeansAllowed(keys[1..], request);
      assert keys == [keys[0]] + keys[1..];
    }
  }

  /** A request is accepted exactly when it is small enough and every variable in it is allowed;
      and then a denied variable keeps the value the lower layers gave it. */
  lemma RequestRules(adapter: map<Str, Str>, defaults: seq<Field>, profile: map<Str, Str>, request: map<Str, Str>,
                     key: Str)
    ensures var r := EffectiveEnv(adapter, defaults, profile, request);
      && (r.Ok? <==> |request| <= MAX_REQUEST_ENV && forall k :: k in request ==> Allowed(k, request[k]))
      && (r.Ok? && Denied(key) ==>
          Entry(r.value, key) == Fill(Entry(profile, key), Fill(Entry(FromPairs(defaults), key), Entry(adapter, key))))
  {
    AcceptedExactly(request);
    hide FirstFault, ValidKey, Denied;
    if EffectiveEnv(adapter, defaults, profile, request).Ok? && Denied(key) {
      LayeredEntry(adapter, FromPairs(defaults), profile, request, key);
    }
  }

  /** Resolving an environment that was already resolved from the same defaults and request
      changes nothing: what the agent stored is what the server recomputes. */
  lemma ResolvingAgainChangesNothing(defaults: seq<Field>, profile: map<Str, Str>, request: map<Str, Str>)
    requires EffectiveEnv(map[], defaults, profile, request).Ok?
    ensures var env := EffectiveEnv(map[], defaults, profile, request).value;
      EffectiveEnv(map[], defaults, env, request) == Ok(env)
  {
    var env := EffectiveEnv(map[], defaults, profile, request).value;
    hide FirstFault;
    LayersAbsorb(FromPairs(defaults), profile, request);
  }

  // ---- the second canonicalizer ----

  ghost function ResolvedFields(p: ResolvedProfile, task: TaskType, command: Str, egress: seq<Str>): seq<Field> {
    Fields(p.adapter, p.image, p.toolchain, p.path, p.target,
           if p.timeoutSecs == 0 then DEFAULT_TASK_TIMEOUT_SECS else p.timeoutSecs,
           task, command, p.features, egress, p.preCommands, p.env)
  }

  ghost function ResolvedText(p: ResolvedProfile, task: TaskType, command: Str, egress: seq<Str>,
                              rules: ArtifactRules): Str {
    Lines(ResolvedFields(p, task, command, egress)) + rules.lines(p.artifacts)
  }

  /** The lines of what was submitted: a zero timeout is 600 seconds, and the hosts come from the request. */
  ghost predicate ResolvedReads(text: Str, p: ResolvedProfile, task: TaskType, command: Str, egress: seq<Str>) {
    WrittenAs(text, p.adapter, p.image, p.toolchain, p.path, p.target,
              if p.timeoutSecs == 0 then 600 else p.timeoutSecs, task, command, p.features, egress, p.preCommands,
                p.env)
  }

  lemma ResolvedIsWritten(p: ResolvedProfile, task: TaskType, command: Str, egress: seq<Str>, rules: ArtifactRules)
    ensures exists text ::
      ResolvedText(p, task, command, egress, rules) == text + rules.lines(p.artifacts) &&
      ResolvedReads(text, p, task, command, egress)
  {
    hide Lines, Fields, WrittenAs;
    FieldsAreWritten(p.adapter, p.image, p.toolchain, p.path, p.target,
                     if p.timeoutSecs == 0 then 600 else p.timeoutSecs, task, command, p.features, egress,
                     p.preCommands, p.env);
    assert ResolvedReads(Lines(ResolvedFields(p, task, command, egress)), p, task, command, egress);
  }

  /** `canonicalize_resolved`. */
  method CanonicalizeResolved(p: ResolvedProfile, task: TaskType, command: Str, egress: seq<Str>, rules: ArtifactRules)
    returns (s: Str)
    ensures s == ResolvedText(p, task, command, egress, rules)
    ensures exists text :: s == text + rules.lines(p.artifacts) && ResolvedReads(text, p, task, command, egress)
  {
    ResolvedIsWritten(p, task, command, egress, rules);
    hide ResolvedReads;
    hide Lines, HeadFields, MiddleFields, CommandFields, EnvFields, FrontFields;
    var timeout := p.timeoutSecs;
    if timeout == 0 {
      timeout := DEFAULT_TASK_TIMEOUT_SECS;
    }
    var head := HeadFields(p.adapter, p.image, p.toolchain, p.path, p.target);
    var middle := MiddleFields(task, command, p.features);
    s := PushFront(head, timeout, middle, egress);
    ghost var before := FrontFields(head, timeout, middle, egress);
    s := PushCommands(s, p.preCommands, before);
    var keys := SortedKeys(p.env.Keys);
    s := PushEnv(s, p.env, keys, before + CommandFields(p.preCommands));
    s := s + rules.lines(p.artifacts);
  }

  /** `effective_profile`: what the server stores and the worker runs. */
  method EffectiveProfile(p: ResolvedProfile, task: TaskType, command: Str, request: map<Str, Str>, egress: seq<Str>,
                          injectContractEnv: bool, rules: ArtifactRules)
    returns (r: Result<ResolvedProfile, EnvError>)
    ensures r == Recomputed(p, task, command, request, egress, injectContractEnv, rules)
    ensures r.Ok? ==> r.value == p.(env := r.value.env, canonical := r.value.canonical)
    ensures r.Ok? ==>
      Layered(r.value.env, map[], if injectContractEnv then DefaultEnv(task) else [], p.env, request)
  {
    hide Layered, FaultOf, FirstAtFault, EffectiveEnv, ResolvedText;
    var defaults := if injectContractEnv then DefaultEnv(task) else [];
    var env := ResolveEnv(map[], defaults, p.env, request);
    if env.Err? {
      return Err(env.error);
    }
    var out := p.(env := env.value);
    var text := CanonicalizeResolved(out, task, command, egress, rules);
    return Ok(out.(canonical := text));
  }

  ghost function Recomputed(p: ResolvedProfile, task: TaskType, command: Str, request: map<Str, Str>, egress: seq<Str>,
                            injectContractEnv: bool, rules: ArtifactRules): Result<ResolvedProfile, EnvError> {
    var env := EffectiveEnv(map[], if injectContractEnv then DefaultEnv(task) else [], p.env, request);
    if env.Err? then Err(env.error)
    else
      var out := p.(env := env.value);
      Ok(out.(canonical := ResolvedText(out, task, command, egress, rules)))
  }

  // ---- the two ends agree ----

  lemma SamePrefix(p: Str, x: Str, y: Str)
    ensures p + x == p + y <==> x == y
  {
    assert (p + x)[|p|..] == x && (p + y)[|p|..] == y;
  }

  lemma SameSuffix(x: Str, y: Str, s: Str)
    ensures x + s == y + s <==> x == y
  {
    if x + s == y + s {
      assert |x| == |y|;
      assert (x + s)[..|x|] == x && (y + s)[..|y|] == y;
    }
  }

  /** Same key, and whatever follows the value starts after a line break. */
  lemma SameLine(key: Str, v: Str, w: Str)
    ensures Line((key, v)) == Line((key, w)) <==> v == w
  {
    var eq := Ascii("=");
    SamePrefix(key, eq + (v + [NEWLINE]), eq + (w + [NEWLINE]));
    SamePrefix(eq, v + [NEWLINE], w + [NEWLINE]);
    SameSuffix(v, w, [NEWLINE]);
  }

  /** The canonical text around its two variable lines. */
  function Around(head: Str, timeout: Str, middle: Str, egress: Str, tail: Str): Str {
    head + (timeout + (middle + (egress + tail)))
  }

  lemma LinesOne(f: Field)
    ensures Lines([f]) == Line(f)
  {
    assert [f][..0] == [];
  }

  lemma FrontLines(head: seq<Field>, timeout: nat, middle: seq<Field>, egress: seq<Str>)
    ensures Lines(FrontFields(head, timeout, middle, egress)) ==
      Lines(head) + Line((Ascii("timeout_secs"), Decimal(timeout))) + Lines(middle) +
        Line((Ascii("egress"), Listed(egress)))
  {
    hide Lines, Line, Listed;
    var t, e := (Ascii("timeout_secs"), Decimal(timeout)), (Ascii("egress"), Listed(egress));
    LinesConcat(head, [t]);
    LinesConcat(head + [t], middle);
    LinesConcat(head + [t] + middle, [e]);
    LinesOne(t);
    LinesOne(e);
  }

  lemma TextAround(head: seq<Field>, timeout: nat, middle: seq<Field>, egress: seq<Str>, commands: seq<Field>,
                   env: seq<Field>, artifacts: Str)
    ensures Lines(FrontFields(head, timeout, middle, egress) + commands + env) + artifacts ==
      Around(Lines(head), Line((Ascii("timeout_secs"), Decimal(timeout))), Lines(middle),
             Line((Ascii("egress"), Listed(egress))), Lines(commands) + Lines(env) + artifacts)
  {
    var front := FrontFields(head, timeout, middle, egress);
    hide Lines, Line, Listed, FrontFields;
    LinesConcat(front + commands, env);
    LinesConcat(front, commands);
    FrontLines(head, timeout, middle, egress);
    Reassociate(Lines(head), Line((Ascii("timeout_secs"), Decimal(timeout))), Lines(middle),
                Line((Ascii("egress"), Listed(egress))), Lines(commands), Lines(env), artifacts);
  }

  lemma Reassociate(a: Str, b: Str, c: Str, d: Str, e: Str, f: Str, g: Str)
    ensures a + b + c + d + e + f + g == a + (b + (c + (d + (e + f + g))))
  {
    assert a + b + c + d + e + f + g == a + b + c + (d + (e + f + g));
    assert a + b + c + (d + (e + f + g)) == a + b + (c + (d + (e + f + g)));
  }

  lemma AroundEgress(head: Str, timeout: Str, middle: Str, x: Str, y: Str, tail: Str)
    ensures Around(head, timeout, middle, x, tail) == Around(head, timeout, middle, y, tail) <==> x == y
  {
    SamePrefix(head, timeout + (middle + (x + tail)), timeout + (middle + (y + tail)));
    SamePrefix(timeout, middle + (x + tail), middle + (y + tail));
    SamePrefix(middle, x + tail, y + tail);
    SameSuffix(x, y, tail);
  }

  /** The line of a zero timeout and the line of the default one part at their first digit. */
  lemma ZeroTimeoutShows(head: Str, key: Str, x: Str, y: Str)
    ensures head + (Line((key, Decimal(0))) + x) != head + (Line((key, Decimal(DEFAULT_TASK_TIMEOUT_SECS))) + y)
  {
    var a, b := Line((key, Decimal(0))), Line((key, Decimal(DEFAULT_TASK_TIMEOUT_SECS)));
    SamePrefix(head, a + x, b + y);
    assert Decimal(0)[0] == 48;
    assert Decimal(6) == [54] && Decimal(60) == Decimal(6) + [48];
    assert Decimal(600) == Decimal(60) + [48];
    assert (a + x)[|key| + 1] == 48 && (b + y)[|key| + 1] == 54;
  }

  /** The text the agent hashed and the text the server rebuilds are the same exactly when the
      profile does not ask for a zero timeout and both ends list the same hosts. */
  lemma CanonicalizersAgree(r: Resolution, egress: seq<Str>, rules: ArtifactRules)
    ensures ResolvedText(ToPb(r, rules), r.task, r.command, egress, rules) == CanonicalText(r, rules) <==>
      r.profile.timeoutSecs != Some(0) && Listed(egress) == Listed(Or(r.profile.egress, []))
  {
    hide Lines, Line, Listed, FrontFields, Decimal, HeadFields, MiddleFields, CommandFields, EnvFields, SpecOf,
      OrderedKeys;
    var p := r.profile;
    var head := HeadFields(r.adapter, r.imageDigest, r.toolchain, Or(p.path, []), Or(p.target, []));
    var middle := MiddleFields(r.task, r.command, Or(p.features, []));
    var commands, env := CommandFields(Or(p.preCommands, [])), EnvFields(p.env, OrderedKeys(p.env.Keys));
    var artifacts := rules.lines(SpecOf(r, rules));
    var mine := Or(p.timeoutSecs, DEFAULT_TASK_TIMEOUT_SECS);
    var theirs := if mine == 0 then DEFAULT_TASK_TIMEOUT_SECS else mine;
    assert CanonicalText(r, rules) ==
      Lines(FrontFields(head, mine, middle, Or(p.egress, [])) + commands + env) + artifacts;
    assert ResolvedText(ToPb(r, rules), r.task, r.command, egress, rules) ==
      Lines(FrontFields(head, theirs, middle, egress) + commands + env) + artifacts;
    TextAround(head, mine, middle, Or(p.egress, []), commands, env, artifacts);
    TextAround(head, theirs, middle, egress, commands, env, artifacts);
    AgreeAround(Lines(head), mine, Lines(middle), Listed(Or(p.egress, [])), Listed(egress),
                Lines(commands) + Lines(env) + artifacts);
  }

  lemma AgreeAround(head: Str, timeout: nat, middle: Str, mine: Str, theirs: Str, tail: Str)
    ensures var key := Ascii("timeout_secs"); var egress := Ascii("egress");
      Around(head, Line((key, Decimal(timeout))), middle, Line((egress, mine)), tail) ==
      Around(head, Line((key, Decimal(if timeout == 0 then DEFAULT_TASK_TIMEOUT_SECS else timeout))), middle,
             Line((egress, theirs)), tail)
      <==> timeout != 0 && mine == theirs
  {
    var key, egress := Ascii("timeout_secs"), Ascii("egress");
    hide Line, Decimal;
    if timeout == 0 {
      ZeroTimeoutShows(head, key, middle + (Line((egress, mine)) + tail), middle + (Line((egress, theirs)) + tail));
    } else {
      AroundEgress(head, Line((key, Decimal(timeout))), middle, Line((egress, mine)), Line((egress, theirs)), tail);
      SameLine(egress, mine, theirs);
    }
  }

  /** The server's recomputation returns the agent's submission unchanged, down to the canonical
      text, exactly under that condition. */
  lemma ServerAgrees(r: Resolution, profileEnv: map<Str, Str>, request: map<Str, Str>, egress: seq<Str>,
                     rules: ArtifactRules)
    requires EffectiveEnv(map[], DefaultEnv(r.task), profileEnv, request) == Ok(r.profile.env)
    ensures Recomputed(ToPb(r, rules), r.task, r.command, request, egress, true, rules) == Ok(ToPb(r, rules)) <==>
      r.profile.timeoutSecs != Some(0) && Listed(egress) == Listed(Or(r.profile.egress, []))
  {
    hide CanonicalText, ResolvedText, EffectiveEnv, SpecOf, Listed;
    ResolvingAgainChangesNothing(DefaultEnv(r.task), profileEnv, request);
    CanonicalizersAgree(r, egress, rules);
    assert ToPb(r, rules).(env := r.profile.env) == ToPb(r, rules);
  }

  /** A profile that came out of the priority chain never carries hosts, so once the submission
      names any, the agent's text and the server's are different texts. */
  lemma RequestedHostsPartTheTexts(layers: seq<Layer>, r: Resolution, egress: seq<Str>, rules: ArtifactRules)
    requires r.profile.egress == Resolved(layers).egress
    ensures ResolvedText(ToPb(r, rules), r.task, r.command, egress, rules) == CanonicalText(r, rules) <==>
      r.profile.timeoutSecs != Some(0) && Listed(egress) == []
  {
    assert Listed([]) == [];
    hide CanonicalText, ResolvedText, ToPb, Listed;
    DisclosureIsNeverInherited(layers);
    CanonicalizersAgree(r, egress, rules);
  }
}
