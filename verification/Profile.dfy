/** Build profiles, their priority chain and their canonical text (crates/rc-core/src/profile.rs). */
module Profile {
  import opened Text
  import opened Sorting

  const DEFAULT_TASK_TIMEOUT_SECS: nat := 600

  datatype TaskType = Check | Build | Test | Clippy | Custom

  function TaskName(t: TaskType): Str {
    match t
    case Check => Ascii("check")
    case Build => Ascii("build")
    case Test => Ascii("test")
    case Clippy => Ascii("clippy")
    case Custom => Ascii("custom")
  }

  datatype ArtifactSpec = ArtifactSpec(paths: seq<Str>, auto: bool, maxTotalMb: nat)

  /** The artifact rules are parameters: what a declaration comes to for a task, and its lines in
      the canonical text. */
  datatype ArtifactRules = ArtifactRules(
    effective: (ArtifactSpec, TaskType) -> Option<ArtifactSpec>,
    lines: Option<ArtifactSpec> -> Str)

  datatype ExtraRoots = Allow(paths: seq<Str>) | Mode(mode: Str)

  datatype Variant = Variant(
    image: Option<Str>,
    target: Option<Str>,
    toolchain: Option<Str>,
    timeoutSecs: Option<nat>,
    features: Option<seq<Str>>,
    preCommands: Option<seq<Str>>,
    env: map<Str, Str>,
    tasks: map<Str, Str>,
    artifacts: Option<ArtifactSpec>)

  datatype BuildProfile = BuildProfile(
    adapter: Option<Str>,
    image: Option<Str>,
    path: Option<Str>,
    target: Option<Str>,
    toolchain: Option<Str>,
    timeoutSecs: Option<nat>,
    features: Option<seq<Str>>,
    preCommands: Option<seq<Str>>,
    env: map<Str, Str>,
    tasks: map<Str, Str>,
    extraRoots: Option<ExtraRoots>,
    exclude: Option<seq<Str>>,
    included: Option<seq<Str>>,
    egress: Option<seq<Str>>,
    artifacts: Option<ArtifactSpec>,
    variants: map<Str, Variant>)

  const UNSET: BuildProfile := BuildProfile(None, None, None, None, None, None, None, None, map[], map[],
    None, None, None, None, None, map[])

  datatype ProfileSource = Explicit | Repo | Server | Detected

  // ---- stacking layers ----

  function Fill<T>(mine: Option<T>, lower: Option<T>): Option<T> {
    if mine.None? then lower else mine
  }

  /** `upper` over `lower`. What decides disclosure stays `upper`'s own. */
  function Overlaid(upper: BuildProfile, lower: BuildProfile): BuildProfile {
    upper.(adapter := Fill(upper.adapter, lower.adapter),
           image := Fill(upper.image, lower.image),
           path := Fill(upper.path, lower.path),
           target := Fill(upper.target, lower.target),
           toolchain := Fill(upper.toolchain, lower.toolchain),
           timeoutSecs := Fill(upper.timeoutSecs, lower.timeoutSecs),
           features := Fill(upper.features, lower.features),
           preCommands := Fill(upper.preCommands, lower.preCommands),
           artifacts := Fill(upper.artifacts, lower.artifacts),
           env := lower.env + upper.env,
           tasks := lower.tasks + upper.tasks)
  }

  /** Add the entries of `lower` whose keys `mine` does not have, one by one. */
  method OrInsertAll<K(==), V>(mine: map<K, V>, lower: map<K, V>) returns (r: map<K, V>)
    ensures r == lower + mine
  {
    r := mine;
    var left := lower.Keys;
    while left != {}
      invariant left <= lower.Keys && r == (lower - left) + mine
      decreases |left|
    {
      var k :| k in left;
      left := left - {k};
      if k !in r {
        r := r[k := lower[k]];
      }
    }
  }

  method FillUnset<T>(mine: Option<T>, lower: Option<T>) returns (r: Option<T>)
    ensures r == Fill(mine, lower)
  {
    r := mine;
    if r.None? {
      r := lower;
    }
  }

  /** The profile a resolution is building up. */
  class Merger {
    var profile: BuildProfile

    constructor ()
      ensures profile == UNSET
    {
      profile := UNSET;
    }

    method Overlay(lower: BuildProfile)
      modifies this
      ensures profile == Overlaid(old(profile), lower)
    {
      var adapter := FillUnset(profile.adapter, lower.adapter);
      var image := FillUnset(profile.image, lower.image);
      var path := FillUnset(profile.path, lower.path);
      var target := FillUnset(profile.target, lower.target);
      var toolchain := FillUnset(profile.toolchain, lower.toolchain);
      var timeoutSecs := FillUnset(profile.timeoutSecs, lower.timeoutSecs);
      var features := FillUnset(profile.features, lower.features);
      var preCommands := FillUnset(profile.preCommands, lower.preCommands);
      var artifacts := FillUnset(profile.artifacts, lower.artifacts);
      var env := OrInsertAll(profile.env, lower.env);
      var tasks := OrInsertAll(profile.tasks, lower.tasks);
      hide Fill;
      profile := profile.(adapter := adapter, image := image, path := path, target := target, toolchain := toolchain,
                          timeoutSecs := timeoutSecs, features := features, preCommands := preCommands,
                          artifacts := artifacts, env := env, tasks := tasks);
    }
  }

  type Layer = (ProfileSource, BuildProfile)

  function Resolved(layers: seq<Layer>): BuildProfile {
    if layers == [] then UNSET else Overlaid(Resolved(layers[..|layers| - 1]), layers[|layers| - 1].1)
  }

  /** Source of the first layer that says anything. */
  function Winner(layers: seq<Layer>): Option<ProfileSource> {
    if layers == [] then None
    else if layers[0].1 != UNSET then Some(layers[0].0)
    else Winner(layers[1..])
  }

  lemma {:induction false} WinnerOfPrefix(layers: seq<Layer>, n: nat)
    requires n < |layers|
    ensures Winner(layers[..n + 1]) ==
      if Winner(layers[..n]).Some? then Winner(layers[..n])
      else if layers[n].1 != UNSET then Some(layers[n].0) else None
  {
    if n == 0 {
      assert layers[..1][1..] == [];
    } else {
      WinnerOfPrefix(layers[1..], n - 1);
      assert layers[..n + 1][1..] == layers[1..][..n];
      assert layers[..n][1..] == layers[1..][..n - 1];
    }
  }

  /** The first layer that says anything. */
  ghost predicate FirstSet(layers: seq<Layer>, k: nat) {
    k < |layers| && layers[k].1 != UNSET && forall j :: 0 <= j < k ==> layers[j].1 == UNSET
  }

  /** `resolve`. */
  method Resolve(layers: seq<Layer>) returns (merged: BuildProfile, winner: ProfileSource)
    ensures merged == Resolved(layers)
    ensures winner == if Winner(layers).Some? then Winner(layers).value else Detected
    ensures forall k: nat :: FirstSet(layers, k) ==> winner == layers[k].0
    ensures (forall k :: 0 <= k < |layers| ==> layers[k].1 == UNSET) ==> winner == Detected
  {
    var merger := new Merger();
    winner := Detected;
    var haveWinner := false;
    for i := 0 to |layers|
      invariant merger.profile == Resolved(layers[..i])
      invariant haveWinner <==> Winner(layers[..i]).Some?
      invariant winner == if haveWinner then Winner(layers[..i]).value else Detected
      invariant !haveWinner ==> forall k :: 0 <= k < i ==> layers[k].1 == UNSET
      invariant haveWinner ==> exists k: nat :: k < i && FirstSet(layers, k) && winner == layers[k].0
    {
      var (source, layer) := layers[i];
      WinnerOfPrefix(layers, i);
      assert layers[..i + 1][..i] == layers[..i];
      if layer != UNSET && !haveWinner {
        winner := source;
        haveWinner := true;
      }
      merger.Overlay(layer);
    }
    assert layers[..|layers|] == layers;
    merged := merger.profile;
  }

  /** A setting that layers may leave to the ones below. */
  ghost predicate Inherited<T(!new)>(get: BuildProfile -> Option<T>) {
    && get(UNSET).None?
    && forall a, b {:trigger get(Overlaid(a, b))} :: get(Overlaid(a, b)) == Fill(get(a), get(b))
  }

  /** What the highest layer that answers says. */
  function FirstAnswer<T>(layers: seq<Layer>, get: BuildProfile -> Option<T>): Option<T> {
    if layers == [] then None else Fill(get(layers[0].1), FirstAnswer(layers[1..], get))
  }

  /** It is the answer of the first layer that has one. */
  lemma {:induction false} FirstAnswerIs<T>(layers: seq<Layer>, get: BuildProfile -> Option<T>, k: nat)
    requires k <= |layers| && forall j :: 0 <= j < k ==> get(layers[j].1).None?
    requires k < |layers| ==> get(layers[k].1).Some?
    ensures FirstAnswer(layers, get) == if k < |layers| then get(layers[k].1) else None
  {
    if k > 0 {
      FirstAnswerIs(layers[1..], get, k - 1);
    }
  }

  lemma {:induction false} FirstAnswerOfPrefix<T>(layers: seq<Layer>, get: BuildProfile -> Option<T>)
    requires layers != []
    ensures FirstAnswer(layers, get) ==
      Fill(FirstAnswer(layers[..|layers| - 1], get), get(layers[|layers| - 1].1))
  {
    if |layers| > 1 {
      FirstAnswerOfPrefix(layers[1..], get);
      assert layers[1..][..|layers| - 2] == layers[..|layers| - 1][1..];
    }
  }

  lemma {:induction false} FirstLayerWins<T(!new)>(layers: seq<Layer>, get: BuildProfile -> Option<T>)
    requires Inherited(get)
    ensures get(Resolved(layers)) == FirstAnswer(layers, get)
  {
    hide Overlaid;
    if layers != [] {
      FirstLayerWins(layers[..|layers| - 1], get);
      FirstAnswerOfPrefix(layers, get);
    }
  }

  function Entry<K(==), V>(m: map<K, V>, key: K): Option<V> {
    if key in m then Some(m[key]) else None
  }

  /** Every inherited setting of a resolved profile, and every single environment variable and
      task, is the answer of the highest layer that has one. */
  lemma ResolvedTakesFirstAnswers(layers: seq<Layer>, key: Str)
    ensures var r := Resolved(layers);
      && r.adapter == FirstAnswer(layers, (p: BuildProfile) => p.adapter)
      && r.image == FirstAnswer(layers, (p: BuildProfile) => p.image)
      && r.path == FirstAnswer(layers, (p: BuildProfile) => p.path)
      && r.target == FirstAnswer(layers, (p: BuildProfile) => p.target)
      && r.toolchain == FirstAnswer(layers, (p: BuildProfile) => p.toolchain)
      && r.timeoutSecs == FirstAnswer(layers, (p: BuildProfile) => p.timeoutSecs)
      && r.features == FirstAnswer(layers, (p: BuildProfile) => p.features)
      && r.preCommands == FirstAnswer(layers, (p: BuildProfile) => p.preCommands)
      && r.artifacts == FirstAnswer(layers, (p: BuildProfile) => p.artifacts)
      && Entry(r.env, key) == FirstAnswer(layers, (p: BuildProfile) => Entry(p.env, key))
      && Entry(r.tasks, key) == FirstAnswer(layers, (p: BuildProfile) => Entry(p.tasks, key))
  {
    FirstLayerWins(layers, (p: BuildProfile) => p.adapter);
    FirstLayerWins(layers, (p: BuildProfile) => p.image);
    FirstLayerWins(layers, (p: BuildProfile) => p.path);
    FirstLayerWins(layers, (p: BuildProfile) => p.target);
    FirstLayerWins(layers, (p: BuildProfile) => p.toolchain);
    FirstLayerWins(layers, (p: BuildProfile) => p.timeoutSecs);
    FirstLayerWins(layers, (p: BuildProfile) => p.features);
    FirstLayerWins(layers, (p: BuildProfile) => p.preCommands);
    FirstLayerWins(layers, (p: BuildProfile) => p.artifacts);
    FirstLayerWins(layers, (p: BuildProfile) => Entry(p.env, key));
    FirstLayerWins(layers, (p: BuildProfile) => Entry(p.tasks, key));
  }

  /** No layer, whatever it is, can put a disclosure setting into a resolved profile. */
  lemma {:induction false} DisclosureIsNeverInherited(layers: seq<Layer>)
    ensures var r := Resolved(layers);
      r.extraRoots.None? && r.exclude.None? && r.included.None? && r.egress.None? && r.variants == map[]
  {
    if layers != [] { DisclosureIsNeverInherited(layers[..|layers| - 1]); }
  }

  // ---- canonical text ----

  type Field = (Str, Str)

  function Line(f: Field): Str {
    f.0 + (Ascii("=") + (f.1 + [NEWLINE]))
  }

  function Lines(fields: seq<Field>): Str {
    if fields == [] then [] else Lines(fields[..|fields| - 1]) + Line(fields[|fields| - 1])
  }

  lemma {:induction false} LinesConcat(a: seq<Field>, b: seq<Field>)
    ensures Lines(a + b) == Lines(a) + Lines(b)
  {
    hide Line;
    if b == [] {
      assert a + b == a;
    } else {
      var n := |b| - 1;
      assert (a + b)[..|a + b| - 1] == a + b[..n];
      LinesConcat(a, b[..n]);
    }
  }

  function Indexed(name: Str, index: Str): Str {
    name + Ascii("[") + index + Ascii("]")
  }

  function CommandFields(commands: seq<Str>): (r: seq<Field>)
    ensures |r| == |commands|
  {
    seq(|commands|, i requires 0 <= i < |commands| => (Indexed(Ascii("pre_commands"), Decimal(i)), commands[i]))
  }

  ghost function EnvFields(env: map<Str, Str>, keys: seq<Str>): (r: seq<Field>)
    requires forall k :: k in keys ==> k in env
    ensures |r| == |keys|
  {
    seq(|keys|, i requires 0 <= i < |keys| => (Indexed(Ascii("env"), keys[i]), env[keys[i]]))
  }

  /** The fields both ends write, in the order both write them. */
  ghost function Fields(adapter: Str, image: Str, toolchain: Str, path: Str, target: Str, timeout: nat, task: TaskType,
                        command: Str, features: seq<Str>, egress: seq<Str>, commands: seq<Str>,
                        env: map<Str, Str>): seq<Field> {
    FrontFields(HeadFields(adapter, image, toolchain, path, target), timeout, MiddleFields(task, command, features),
                egress)
      + CommandFields(commands) + EnvFields(env, OrderedKeys(env.Keys))
  }

  function FrontFields(head: seq<Field>, timeout: nat, middle: seq<Field>, egress: seq<Str>): seq<Field> {
    head + [(Ascii("timeout_secs"), Decimal(timeout))] + middle + [(Ascii("egress"), Listed(egress))]
  }

  function HeadFields(adapter: Str, image: Str, toolchain: Str, path: Str, target: Str): seq<Field> {
    [(Ascii("adapter"), adapter), (Ascii("image"), image), (Ascii("toolchain"), toolchain), (Ascii("path"), path),
     (Ascii("target"), target)]
  }

  function MiddleFields(task: TaskType, command: Str, features: seq<Str>): seq<Field> {
    [(Ascii("task_type"), TaskName(task)), (Ascii("command"), command), (Ascii("features"), Listed(features))]
  }

  /** `sort`, `dedup`, `join(",")`. */
  function Listed(items: seq<Str>): Str {
    Join(SortDedup(items), [COMMA])
  }

  /** A profile plus the task selected from it. */
  datatype Resolution = Resolution(
    profile: BuildProfile,
    source: ProfileSource,
    task: TaskType,
    command: Str,
    adapter: Str,
    imageDigest: Str,
    toolchain: Str)

  /** What travels to the server. */
  datatype ResolvedProfile = ResolvedProfile(
    adapter: Str,
    image: Str,
    path: Str,
    env: map<Str, Str>,
    features: seq<Str>,
    target: Str,
    preCommands: seq<Str>,
    tasks: map<Str, Str>,
    timeoutSecs: nat,
    toolchain: Str,
    canonical: Str,
    source: ProfileSource,
    artifacts: Option<ArtifactSpec>)

  function Or<T>(o: Option<T>, d: T): T {
    if o.Some? then o.value else d
  }

  function SpecOf(r: Resolution, rules: ArtifactRules): Option<ArtifactSpec> {
    if r.profile.artifacts.None? then None else rules.effective(r.profile.artifacts.value, r.task)
  }

  ghost function ResolutionFields(r: Resolution): seq<Field> {
    Fields(r.adapter, r.imageDigest, r.toolchain, Or(r.profile.path, []), Or(r.profile.target, []),
           Or(r.profile.timeoutSecs, DEFAULT_TASK_TIMEOUT_SECS), r.task, r.command, Or(r.profile.features, []),
           Or(r.profile.egress, []), Or(r.profile.preCommands, []), r.profile.env)
  }

  ghost function CanonicalText(r: Resolution, rules: ArtifactRules): Str {
    Lines(ResolutionFields(r)) + rules.lines(SpecOf(r, rules))
  }

  // ---- the text, line by line ----

  /** The items of a list in byte order, each once, with commas between them. */
  ghost predicate ListOf(text: Str, items: seq<Str>) {
    exists parts: seq<Str> :: Ascending(parts) && (forall x :: x in parts <==> x in items) && text == Join(parts, [44])
  }

  /** The ten lines every text starts with. */
  ghost predicate Opening(rows: seq<Field>, adapter: Str, image: Str, toolchain: Str, path: Str, target: Str,
                          timeout: nat, task: TaskType, command: Str, features: seq<Str>, egress: seq<Str>)
    requires |rows| >= 10
  {
    && rows[0] == (Ascii("adapter"), adapter) && rows[1] == (Ascii("image"), image)
    && rows[2] == (Ascii("toolchain"), toolchain) && rows[3] == (Ascii("path"), path)
    && rows[4] == (Ascii("target"), target)
    && rows[5].0 == Ascii("timeout_secs") && Spells(rows[5].1, timeout)
    && rows[6] == (Ascii("task_type"), TaskName(task)) && rows[7] == (Ascii("command"), command)
    && rows[8].0 == Ascii("features") && ListOf(rows[8].1, features)
    && rows[9].0 == Ascii("egress") && ListOf(rows[9].1, egress)
  }

  /** The commands in their order, each with its index. */
  ghost predicate CommandRows(rows: seq<Field>, commands: seq<Str>) {
    |rows| == |commands| && forall i :: 0 <= i < |commands| ==> CommandRow(rows[i], i, commands[i])
  }

  ghost predicate CommandRow(row: Field, i: nat, command: Str) {
    row.1 == command &&
    exists digits :: Spells(digits, i) && row.0 == Ascii("pre_commands[") + digits + Ascii("]")
  }

  /** The variables in the byte order of their names. */
  ghost predicate EnvRows(rows: seq<Field>, env: map<Str, Str>) {
    exists keys :: Enumerates(keys, env.Keys) && |rows| == |keys| &&
      forall i :: 0 <= i < |keys| ==> rows[i] == (Ascii("env[") + keys[i] + Ascii("]"), env[keys[i]])
  }

  /** `key=value` and a line break for each row, one after the other. */
  ghost predicate Written(stages: seq<Str>, rows: seq<Field>) {
    && |stages| == |rows| + 1 && stages[0] == []
    && forall i {:trigger rows[i]} :: 0 <= i < |rows| ==>
      stages[i + 1] == stages[i] + rows[i].0 + [61] + rows[i].1 + [10]
  }

  /** The whole text but for the lines of the artifacts. */
  ghost predicate WrittenAs(text: Str, adapter: Str, image: Str, toolchain: Str, path: Str, target: Str, timeout: nat,
                            task: TaskType, command: Str, features: seq<Str>, egress: seq<Str>, commands: seq<Str>,
                            env: map<Str, Str>) {
    exists rows, stages :: Written(stages, rows) && text == stages[|rows|] && |rows| >= 10 + |commands| &&
      Opening(rows, adapter, image, toolchain, path, target, timeout, task, command, features, egress) &&
      CommandRows(rows[10..10 + |commands|], commands) && EnvRows(rows[10 + |commands|..], env)
  }

  lemma ListedIsList(items: seq<Str>)
    ensures ListOf(Listed(items), items)
  {
    LeqIsTotalPreorder();
    SortSorts(Leq, items);
    SameElements(items, Sort(Leq, items));
    DedupStrict(Sort(Leq, items));
    hide Sort, Dedup, Join, Leq, Sorted;
  }

  lemma FrontOpens(adapter: Str, image: Str, toolchain: Str, path: Str, target: Str, timeout: nat, task: TaskType,
                   command: Str, features: seq<Str>, egress: seq<Str>)
    ensures var front := FrontFields(HeadFields(adapter, image, toolchain, path, target), timeout,
                                     MiddleFields(task, command, features), egress);
      |front| == 10 && Opening(front, adapter, image, toolchain, path, target, timeout, task, command, features, egress)
  {
    hide Listed, ListOf, Spells, Decimal, Ascii, TaskName;
    ListedIsList(features);
    ListedIsList(egress);
    DecimalSpells(timeout);
  }

  lemma CommandFieldsAre(commands: seq<Str>)
    ensures CommandRows(CommandFields(commands), commands)
  {
    forall i | 0 <= i < |commands| ensures CommandRow(CommandFields(commands)[i], i, commands[i]) {
      DecimalSpells(i);
      CommandKey(i);
      hide Decimal, Spells, Indexed, Ascii;
    }
  }

  lemma CommandKey(i: nat)
    ensures Indexed(Ascii("pre_commands"), Decimal(i)) == Ascii("pre_commands[") + Decimal(i) + Ascii("]")
  {
    assert Ascii("pre_commands[") == Ascii("pre_commands") + Ascii("[");
    hide Decimal;
  }

  lemma EnvFieldsAre(env: map<Str, Str>)
    ensures EnvRows(EnvFields(env, OrderedKeys(env.Keys)), env)
  {
    var keys := OrderedKeys(env.Keys);
    assert forall k :: k in keys ==> k in env;
    hide Enumerates, OrderedKeys;
    forall i | 0 <= i < |keys|
      ensures EnvFields(env, keys)[i] == (Ascii("env[") + keys[i] + Ascii("]"), env[keys[i]]) {
      assert Ascii("env[") == Ascii("env") + Ascii("[");
    }
  }

  lemma {:induction false} LinesAreWritten(rows: seq<Field>) returns (stages: seq<Str>)
    ensures |stages| == |rows| + 1 && Written(stages, rows) && Lines(rows) == stages[|rows|]
  {
    if rows == [] {
      stages := [[]];
    } else {
      var before, last := rows[..|rows| - 1], rows[|rows| - 1];
      stages := LinesAreWritten(before);
      var top := stages[|before|];
      LineIs(last);
      assert Lines(rows) == top + last.0 + [61] + last.1 + [10];
      stages := stages + [Lines(rows)];
      hide Lines;
      forall i | 0 <= i < |rows| ensures stages[i + 1] == stages[i] + rows[i].0 + [61] + rows[i].1 + [10] {
        if i < |before| { assert before[i] == rows[i]; }
      }
    }
  }

  lemma LineIs(f: Field)
    ensures Line(f) == f.0 + [61] + f.1 + [10]
  {
    assert Ascii("=") == [61];
  }

  lemma SplitInThree(a: seq<Field>, b: seq<Field>, c: seq<Field>)
    ensures var rows := a + b + c;
      && rows[..|a|] == a && rows[|a|..|a| + |b|] == b && rows[|a| + |b|..] == c
  {
  }

  lemma OpeningOfPrefix(rows: seq<Field>, front: seq<Field>, adapter: Str, image: Str, toolchain: Str, path: Str,
                        target: Str, timeout: nat, task: TaskType, command: Str, features: seq<Str>, egress: seq<Str>)
    requires |front| == 10 && front <= rows
    requires Opening(front, adapter, image, toolchain, path, target, timeout, task, command, features, egress)
    ensures Opening(rows, adapter, image, toolchain, path, target, timeout, task, command, features, egress)
  {
    hide Ascii, ListOf, Spells, TaskName;
  }

  lemma PartsAreWritten(rows: seq<Field>, front: seq<Field>, b: seq<Field>, c: seq<Field>, stages: seq<Str>,
                        adapter: Str,
                        image: Str, toolchain: Str, path: Str, target: Str, timeout: nat, task: TaskType, command: Str,
                        features: seq<Str>, egress: seq<Str>, commands: seq<Str>, env: map<Str, Str>)
    requires rows == front + b + c && |front| == 10
    requires Opening(front, adapter, image, toolchain, path, target, timeout, task, command, features, egress)
    requires CommandRows(b, commands) && |b| == |commands| && EnvRows(c, env) && Written(stages, rows)
    requires |stages| == |rows| + 1
    ensures WrittenAs(stages[|rows|], adapter, image, toolchain, path, target, timeout, task, command, features, egress,
                      commands, env)
  {
    hide Opening, CommandRows, EnvRows, Written;
    SplitInThree(front, b, c);
    OpeningOfPrefix(rows, front, adapter, image, toolchain, path, target, timeout, task, command, features, egress);
  }

  lemma FieldsAreWritten(adapter: Str, image: Str, toolchain: Str, path: Str, target: Str, timeout: nat, task: TaskType,
                         command: Str, features: seq<Str>, egress: seq<Str>, commands: seq<Str>, env: map<Str, Str>)
    ensures WrittenAs(
      Lines(Fields(adapter, image, toolchain, path, target, timeout, task, command, features, egress, commands, env)),
      adapter, image, toolchain, path, target, timeout, task, command, features, egress, commands, env)
  {
    var head, middle := HeadFields(adapter, image, toolchain, path, target), MiddleFields(task, command, features);
    var front := FrontFields(head, timeout, middle, egress);
    var b, c := CommandFields(commands), EnvFields(env, OrderedKeys(env.Keys));
    var rows := front + b + c;
    assert rows ==
      Fields(adapter, image, toolchain, path, target, timeout, task, command, features, egress, commands, env);
    hide *;
    FrontOpens(adapter, image, toolchain, path, target, timeout, task, command, features, egress);
    CommandFieldsAre(commands);
    EnvFieldsAre(env);
    var stages := LinesAreWritten(rows);
    PartsAreWritten(rows, front, b, c, stages, adapter, image, toolchain, path, target, timeout, task, command,
      features,
                    egress, commands, env);
  }

  lemma LinesPush(fields: seq<Field>, key: Str, value: Str)
    ensures Lines(fields + [(key, value)]) == Lines(fields) + Line((key, value))
  {
    assert (fields + [(key, value)])[..|fields|] == fields;
  }

  /** The commands and the environment, appended in order. */
  method PushCommands(s: Str, commands: seq<Str>, ghost before: seq<Field>) returns (t: Str)
    requires s == Lines(before)
    ensures t == Lines(before + CommandFields(commands))
  {
    hide Line, Lines;
    t := s;
    assert before + CommandFields(commands)[..0] == before;
    for i := 0 to |commands|
      invariant t == Lines(before + CommandFields(commands)[..i])
    {
      var key := Indexed(Ascii("pre_commands"), Decimal(i));
      LinesPush(before + CommandFields(commands)[..i], key, commands[i]);
      assert before + CommandFields(commands)[..i] + [(key, commands[i])] == before + CommandFields(commands)[..i + 1];
      t := t + Line((key, commands[i]));
    }
    assert CommandFields(commands)[..|commands|] == CommandFields(commands);
  }

  method PushEnv(s: Str, env: map<Str, Str>, keys: seq<Str>, ghost before: seq<Field>) returns (t: Str)
    requires s == Lines(before) && forall k :: k in keys ==> k in env
    ensures t == Lines(before + EnvFields(env, keys))
  {
    hide Line, Lines;
    t := s;
    assert before + EnvFields(env, keys)[..0] == before;
    for i := 0 to |keys|
      invariant t == Lines(before + EnvFields(env, keys)[..i])
    {
      var key := Indexed(Ascii("env"), keys[i]);
      LinesPush(before + EnvFields(env, keys)[..i], key, env[keys[i]]);
      assert before + EnvFields(env, keys)[..i] + [(key, env[keys[i]])] == before + EnvFields(env, keys)[..i + 1];
      t := t + Line((key, env[keys[i]]));
    }
    assert EnvFields(env, keys)[..|keys|] == EnvFields(env, keys);
  }

  /** Push a run of plain fields. */
  method PushAll(s: Str, fields: seq<Field>, ghost before: seq<Field>) returns (t: Str)
    requires s == Lines(before)
    ensures t == Lines(before + fields)
  {
    hide Line, Lines;
    t := s;
    assert before + fields[..0] == before;
    for i := 0 to |fields|
      invariant t == Lines(before + fields[..i])
    {
      LinesPush(before + fields[..i], fields[i].0, fields[i].1);
      assert before + fields[..i] + [(fields[i].0, fields[i].1)] == before + fields[..i + 1];
      t := t + Line(fields[i]);
    }
    assert fields[..|fields|] == fields;
  }

  method PushFront(head: seq<Field>, timeout: nat, middle: seq<Field>, egress: seq<Str>) returns (s: Str)
    ensures s == Lines(FrontFields(head, timeout, middle, egress))
  {
    hide Line, Listed;
    s := PushAll([], head, []);
    assert [] + head == head;
    hide Lines;
    s := PushAll(s, [(Ascii("timeout_secs"), Decimal(timeout))], head);
    s := PushAll(s, middle, head + [(Ascii("timeout_secs"), Decimal(timeout))]);
    s := PushAll(s, [(Ascii("egress"), Listed(egress))], head + [(Ascii("timeout_secs"), Decimal(timeout))] + middle);
  }

  /** The lines of a resolution: what its profile leaves open is empty, and a timeout is 600 seconds. */
  ghost predicate ReadsAs(text: Str, r: Resolution) {
    var p := r.profile;
    WrittenAs(text, r.adapter, r.imageDigest, r.toolchain, Or(p.path, []), Or(p.target, []), Or(p.timeoutSecs, 600),
              r.task, r.command, Or(p.features, []), Or(p.egress, []), Or(p.preCommands, []), p.env)
  }

  lemma CanonicalIsWritten(r: Resolution, rules: ArtifactRules)
    ensures exists text :: CanonicalText(r, rules) == text + rules.lines(SpecOf(r, rules)) && ReadsAs(text, r)
  {
    hide Lines, Fields, WrittenAs, SpecOf;
    var p := r.profile;
    FieldsAreWritten(r.adapter, r.imageDigest, r.toolchain, Or(p.path, []), Or(p.target, []), Or(p.timeoutSecs, 600),
                     r.task, r.command, Or(p.features, []), Or(p.egress, []), Or(p.preCommands, []), p.env);
    assert ReadsAs(Lines(ResolutionFields(r)), r);
  }

  /** `Resolution::canonical`. */
  method Canonical(r: Resolution, rules: ArtifactRules) returns (s: Str)
    ensures s == CanonicalText(r, rules)
    ensures exists text :: s == text + rules.lines(SpecOf(r, rules)) && ReadsAs(text, r)
  {
    CanonicalIsWritten(r, rules);
    hide ReadsAs;
    hide Lines, HeadFields, MiddleFields, CommandFields, EnvFields, FrontFields, SpecOf;
    var p := r.profile;
    var head := HeadFields(r.adapter, r.imageDigest, r.toolchain, Or(p.path, []), Or(p.target, []));
    var timeout := Or(p.timeoutSecs, DEFAULT_TASK_TIMEOUT_SECS);
    var middle := MiddleFields(r.task, r.command, Or(p.features, []));
    s := PushFront(head, timeout, middle, Or(p.egress, []));
    ghost var before := FrontFields(head, timeout, middle, Or(p.egress, []));
    s := PushCommands(s, Or(p.preCommands, []), before);
    var keys := SortedKeys(p.env.Keys);
    s := PushEnv(s, p.env, keys, before + CommandFields(Or(p.preCommands, [])));
    s := s + rules.lines(SpecOf(r, rules));
  }

  /** `Resolution::to_pb`. */
  ghost function ToPb(r: Resolution, rules: ArtifactRules): ResolvedProfile {
    var p := r.profile;
    ResolvedProfile(r.adapter, r.imageDigest, Or(p.path, []), p.env, Or(p.features, []), Or(p.target, []),
      Or(p.preCommands, []), p.tasks, Or(p.timeoutSecs, DEFAULT_TASK_TIMEOUT_SECS), r.toolchain,
      CanonicalText(r, rules), r.source, SpecOf(r, rules))
  }
}
