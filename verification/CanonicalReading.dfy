/** What the canonical text of a profile spells (crates/rc-core/src/profile.rs). */
module CanonicalReading {
  import opened Text
  import opened Sorting
  import opened Profile
  import Fingerprint

  const EQUALS: byte := 61
  const CLOSING: byte := 93

  /** Everything the text is made of, but for the artifacts. */
  datatype Settings = Settings(
    adapter: Str, image: Str, toolchain: Str, path: Str, target: Str, timeout: nat, task: TaskType, command: Str,
    features: seq<Str>, egress: seq<Str>, commands: seq<Str>, env: map<Str, Str>)

  function SettingsOf(r: Resolution): Settings {
    Settings(r.adapter, r.imageDigest, r.toolchain, Or(r.profile.path, []), Or(r.profile.target, []),
             Or(r.profile.timeoutSecs, DEFAULT_TASK_TIMEOUT_SECS), r.task, r.command, Or(r.profile.features, []),
             Or(r.profile.egress, []), Or(r.profile.preCommands, []), r.profile.env)
  }

  function Front(x: Settings): seq<Field> {
    FrontFields(HeadFields(x.adapter, x.image, x.toolchain, x.path, x.target), x.timeout,
                MiddleFields(x.task, x.command, x.features), x.egress)
  }

  ghost function Spelled(x: Settings, tail: Str): Str {
    Lines(Front(x)) + (Lines(CommandFields(x.commands)) + (Lines(EnvFields(x.env, OrderedKeys(x.env.Keys))) + tail))
  }

  lemma CanonicalIsSpelled(r: Resolution, rules: ArtifactRules)
    ensures CanonicalText(r, rules) == Spelled(SettingsOf(r), rules.lines(SpecOf(r, rules)))
  {
    var x := SettingsOf(r);
    var commands, env := CommandFields(x.commands), EnvFields(x.env, OrderedKeys(x.env.Keys));
    assert ResolutionFields(r) == Front(x) + commands + env;
    hide *;
    TextOf(r, rules);
    ThreeParts(Front(x), commands, env, rules.lines(SpecOf(r, rules)));
    SpelledIs(x, rules.lines(SpecOf(r, rules)));
  }

  lemma TextOf(r: Resolution, rules: ArtifactRules)
    ensures CanonicalText(r, rules) == Lines(ResolutionFields(r)) + rules.lines(SpecOf(r, rules))
  {
    hide Lines, ResolutionFields, SpecOf;
  }

  lemma SpelledIs(x: Settings, tail: Str)
    ensures Spelled(x, tail) ==
      Lines(Front(x)) + (Lines(CommandFields(x.commands)) + (Lines(EnvFields(x.env, OrderedKeys(x.env.Keys))) + tail))
  {
    hide Lines, Front, CommandFields, EnvFields, OrderedKeys;
  }

  lemma ThreeParts(a: seq<Field>, b: seq<Field>, c: seq<Field>, tail: Str)
    ensures Lines(a + b + c) + tail == Lines(a) + (Lines(b) + (Lines(c) + tail))
  {
    hide Lines;
    LinesConcat(a + b, c);
    LinesConcat(a, b);
  }

  // ---- what may stand in it ----

  predicate Item(s: Str) {
    s != [] && NEWLINE !in s && COMMA !in s
  }

  /** No line break in a value, no comma in an item of a list, no empty item, and no closing bracket
      in the name of a variable. */
  predicate Plain(x: Settings) {
    && NEWLINE !in x.adapter && NEWLINE !in x.image && NEWLINE !in x.toolchain && NEWLINE !in x.path
    && NEWLINE !in x.target && NEWLINE !in x.command
    && (forall f :: f in x.features ==> Item(f)) && (forall e :: e in x.egress ==> Item(e))
    && (forall c :: c in x.commands ==> NEWLINE !in c)
    && (forall k :: k in x.env ==> CLOSING !in k && NEWLINE !in x.env[k])
  }

  predicate StartsCommand(s: Str) {
    Ascii("pre_commands[") <= s
  }

  predicate StartsVariable(s: Str) {
    Ascii("env[") <= s
  }

  /** The artifact lines do not look like a command or a variable. */
  predicate Foreign(tail: Str) {
    !StartsCommand(tail) && !StartsVariable(tail)
  }

  /** The same settings; the lists are sets. */
  ghost predicate SameSettings(x: Settings, y: Settings) {
    && x == y.(features := x.features, egress := x.egress)
    && (forall f :: f in x.features <==> f in y.features)
    && (forall e :: e in x.egress <==> e in y.egress)
  }

  // ---- one line ----

  /** Up to the first occurrence of a byte that neither field holds, two texts agree. */
  lemma CutsAgree(sep: byte, a: Str, b: Str, x: Str, y: Str)
    requires sep !in a && sep !in b && a + ([sep] + x) == b + ([sep] + y)
    ensures a == b && x == y
  {
    var s, t := a + ([sep] + x), b + ([sep] + y);
    assert s[|a|] == sep && t[|b|] == sep;
    assert forall k :: 0 <= k < |a| ==> s[k] == a[k];
    assert forall k :: 0 <= k < |b| ==> t[k] == b[k];
    assert |a| == |b|;
    assert a == s[..|a|] && b == t[..|b|];
    assert x == s[|a| + 1..] && y == t[|b| + 1..];
  }

  lemma PrefixOff(p: Str, x: Str, y: Str)
    requires p + x == p + y
    ensures x == y
  {
    assert x == (p + x)[|p|..] && y == (p + y)[|p|..];
  }

  lemma LineIs(key: Str, value: Str, rest: Str)
    ensures Line((key, value)) + rest == (key + Ascii("=")) + (value + ([NEWLINE] + rest))
  {
  }

  /** Two lines of one key. */
  lemma ValuesAgree(key: Str, v: Str, w: Str, x: Str, y: Str)
    requires NEWLINE !in v && NEWLINE !in w && Line((key, v)) + x == Line((key, w)) + y
    ensures v == w && x == y
  {
    hide Line, Ascii;
    LineIs(key, v, x);
    LineIs(key, w, y);
    PrefixOff(key + Ascii("="), v + ([NEWLINE] + x), w + ([NEWLINE] + y));
    CutsAgree(NEWLINE, v, w, x, y);
  }

  lemma EnvLineIs(k: Str, v: Str, rest: Str)
    ensures Line((Indexed(Ascii("env"), k), v)) + rest ==
      (Ascii("env") + Ascii("[")) + (k + ([CLOSING] + (Ascii("=") + (v + ([NEWLINE] + rest)))))
  {
    assert Ascii("]") == [CLOSING];
  }

  /** Two lines of the environment. */
  lemma VariablesAgree(k: Str, v: Str, l: Str, w: Str, x: Str, y: Str)
    requires CLOSING !in k && CLOSING !in l && NEWLINE !in v && NEWLINE !in w
    requires Line((Indexed(Ascii("env"), k), v)) + x == Line((Indexed(Ascii("env"), l), w)) + y
    ensures k == l && v == w && x == y
  {
    hide Line, Ascii, Indexed;
    EnvLineIs(k, v, x);
    EnvLineIs(l, w, y);
    var a, b := v + ([NEWLINE] + x), w + ([NEWLINE] + y);
    PrefixOff(Ascii("env") + Ascii("["), k + ([CLOSING] + (Ascii("=") + a)), l + ([CLOSING] + (Ascii("=") + b)));
    CutsAgree(CLOSING, k, l, Ascii("=") + a, Ascii("=") + b);
    PrefixOff(Ascii("="), a, b);
    CutsAgree(NEWLINE, v, w, x, y);
  }

  lemma FirstLine(fields: seq<Field>, rest: Str)
    requires fields != []
    ensures Lines(fields) + rest == Line(fields[0]) + (Lines(fields[1..]) + rest)
  {
    hide Line;
    assert fields == [fields[0]] + fields[1..];
    LinesConcat([fields[0]], fields[1..]);
    assert [fields[0]][..0] == [];
    assert Lines([fields[0]]) == Line(fields[0]);
  }

  lemma NoLines(fields: seq<Field>)
    requires fields == []
    ensures Lines(fields) == []
  {
  }

  // ---- runs of lines ----

  /** Fields of the same keys, one by one. */
  lemma {:induction false} FrontAgrees(a: seq<Field>, b: seq<Field>, x: Str, y: Str)
    requires |a| == |b| && forall i :: 0 <= i < |a| ==> a[i].0 == b[i].0
    requires forall i :: 0 <= i < |a| ==> NEWLINE !in a[i].1 && NEWLINE !in b[i].1
    requires Lines(a) + x == Lines(b) + y
    ensures a == b && x == y
    decreases |a|
  {
    hide Lines, Line;
    if a == [] {
      NoLines(a);
      NoLines(b);
      assert [] + x == x && [] + y == y;
    } else {
      FirstLine(a, x);
      FirstLine(b, y);
      ValuesAgree(a[0].0, a[0].1, b[0].1, Lines(a[1..]) + x, Lines(b[1..]) + y);
      FrontAgrees(a[1..], b[1..], x, y);
      assert a == [a[0]] + a[1..] && b == [b[0]] + b[1..];
    }
  }

  lemma CommandLineStarts(i: nat, v: Str, rest: Str)
    ensures StartsCommand(Line((Indexed(Ascii("pre_commands"), Decimal(i)), v)) + rest)
  {
    assert Ascii("pre_commands[") == Ascii("pre_commands") + Ascii("[");
  }

  lemma VariableLineStarts(k: Str, v: Str, rest: Str)
    ensures StartsVariable(Line((Indexed(Ascii("env"), k), v)) + rest)
  {
    assert Ascii("env[") == Ascii("env") + Ascii("[");
  }

  lemma NotBoth(s: Str)
    ensures !(StartsCommand(s) && StartsVariable(s))
  {
    assert Ascii("pre_commands[")[0] == 112 && Ascii("env[")[0] == 101;
  }

  lemma {:induction false} CommandsAgree(c: seq<Str>, d: seq<Str>, i: nat, x: Str, y: Str)
    requires i <= |c| && i <= |d| && c[..i] == d[..i]
    requires (forall v :: v in c ==> NEWLINE !in v) && (forall v :: v in d ==> NEWLINE !in v)
    requires !StartsCommand(x) && !StartsCommand(y)
    requires Lines(CommandFields(c)[i..]) + x == Lines(CommandFields(d)[i..]) + y
    ensures c == d && x == y
    decreases |c| - i
  {
    hide Lines, Line, Indexed, StartsCommand, Decimal, Ascii;
    if i < |c| {
      CommandsFrom(c, i, x);
    } else {
      NoLines(CommandFields(c)[i..]);
      assert [] + x == x;
    }
    if i < |d| {
      CommandsFrom(d, i, y);
    } else {
      NoLines(CommandFields(d)[i..]);
      assert [] + y == y;
    }
    if i < |c| && i < |d| {
      var key := Indexed(Ascii("pre_commands"), Decimal(i));
      ValuesAgree(key, c[i], d[i], Lines(CommandFields(c)[i + 1..]) + x, Lines(CommandFields(d)[i + 1..]) + y);
      assert c[..i + 1] == d[..i + 1];
      CommandsAgree(c, d, i + 1, x, y);
    }
  }

  lemma CommandsFrom(c: seq<Str>, i: nat, x: Str)
    requires i < |c|
    ensures Lines(CommandFields(c)[i..]) + x ==
      Line((Indexed(Ascii("pre_commands"), Decimal(i)), c[i])) + (Lines(CommandFields(c)[i + 1..]) + x)
    ensures StartsCommand(Lines(CommandFields(c)[i..]) + x)
  {
    hide Lines, Line, Indexed, StartsCommand, Decimal, Ascii;
    FirstLine(CommandFields(c)[i..], x);
    assert CommandFields(c)[i..][1..] == CommandFields(c)[i + 1..];
    CommandLineStarts(i, c[i], Lines(CommandFields(c)[i + 1..]) + x);
  }

  lemma VariablesFrom(env: map<Str, Str>, keys: seq<Str>, x: Str)
    requires keys != [] && forall k :: k in keys ==> k in env
    ensures Lines(EnvFields(env, keys)) + x ==
      Line((Indexed(Ascii("env"), keys[0]), env[keys[0]])) + (Lines(EnvFields(env, keys[1..])) + x)
    ensures StartsVariable(Lines(EnvFields(env, keys)) + x)
  {
    hide Lines, Line, Indexed, StartsVariable, Ascii;
    FirstLine(EnvFields(env, keys), x);
    assert EnvFields(env, keys)[1..] == EnvFields(env, keys[1..]);
    VariableLineStarts(keys[0], env[keys[0]], Lines(EnvFields(env, keys[1..])) + x);
  }

  lemma NoVariables(env: map<Str, Str>, x: Str)
    ensures Lines(EnvFields(env, [])) + x == x
  {
    NoLines(EnvFields(env, []));
    hide Lines;
    assert [] + x == x;
  }

  predicate PlainEnv(env: map<Str, Str>) {
    forall k :: k in env ==> CLOSING !in k && NEWLINE !in env[k]
  }

  lemma {:induction false} EnvAgrees(e: map<Str, Str>, f: map<Str, Str>, ks: seq<Str>, ls: seq<Str>, x: Str, y: Str)
    requires (forall k :: k in ks ==> k in e) && (forall l :: l in ls ==> l in f) && PlainEnv(e) && PlainEnv(f)
    requires !StartsVariable(x) && !StartsVariable(y)
    requires Lines(EnvFields(e, ks)) + x == Lines(EnvFields(f, ls)) + y
    ensures ks == ls && (forall k :: k in ks ==> e[k] == f[k]) && x == y
    decreases |ks|
  {
    hide Lines, Line, EnvFields, Indexed, StartsVariable, Ascii;
    if ks == [] { NoVariables(e, x); } else { VariablesFrom(e, ks, x); }
    if ls == [] { NoVariables(f, y); } else { VariablesFrom(f, ls, y); }
    if ks != [] && ls != [] {
      assert ks[0] in ks && ls[0] in ls;
      VariablesAgree(ks[0], e[ks[0]], ls[0], f[ls[0]], Lines(EnvFields(e, ks[1..])) + x,
                     Lines(EnvFields(f, ls[1..])) + y);
      EnvAgrees(e, f, ks[1..], ls[1..], x, y);
      assert ks == [ks[0]] + ks[1..] && ls == [ls[0]] + ls[1..];
    }
  }

  // ---- the ten fields in front ----

  lemma FrontIs(x: Settings)
    ensures |Front(x)| == 10
    ensures Front(x)[0] == (Ascii("adapter"), x.adapter) && Front(x)[1] == (Ascii("image"), x.image)
    ensures Front(x)[2] == (Ascii("toolchain"), x.toolchain) && Front(x)[3] == (Ascii("path"), x.path)
    ensures Front(x)[4] == (Ascii("target"), x.target)
    ensures Front(x)[5] == (Ascii("timeout_secs"), Decimal(x.timeout))
    ensures Front(x)[6] == (Ascii("task_type"), TaskName(x.task)) && Front(x)[7] == (Ascii("command"), x.command)
    ensures Front(x)[8] == (Ascii("features"), Listed(x.features)) && Front(x)[9] == (Ascii("egress"), Listed(x.egress))
  {
    hide Ascii, Decimal, TaskName, Listed;
  }

  lemma ListedPlain(items: seq<Str>)
    requires forall i :: i in items ==> Item(i)
    ensures NEWLINE !in Listed(items)
  {
    SortDedupKeeps(items);
    JoinWithout(SortDedup(items), [COMMA], NEWLINE);
  }

  lemma SortDedupKeeps(items: seq<Str>)
    ensures forall x :: x in SortDedup(items) <==> x in items
  {
    SortDedupCanonical(SortDedup(items), items);
    SameElements(items, Sort(Leq, items));
  }

  lemma TaskNamesDiffer(a: TaskType, b: TaskType)
    requires TaskName(a) == TaskName(b)
    ensures a == b
  {
    assert Ascii("check")[0] == 99 && Ascii("build")[0] == 98 && |Ascii("check")| == 5 && |Ascii("build")| == 5;
    assert |Ascii("test")| == 4 && |Ascii("clippy")| == 6 && |Ascii("custom")| == 6;
    assert Ascii("clippy")[1] == 108 && Ascii("custom")[1] == 117;
  }

  lemma TaskNamePlain(t: TaskType)
    ensures NEWLINE !in TaskName(t)
  {
    AsciiPlain("check");
    AsciiPlain("build");
    AsciiPlain("test");
    AsciiPlain("clippy");
    AsciiPlain("custom");
  }

  lemma AsciiPlain(s: string)
    requires forall i :: 0 <= i < |s| ==> s[i] != '\n'
    ensures NEWLINE !in Ascii(s)
  {
    assert '\n' as int == 10;
  }

  lemma {:induction false} ListsAgree(a: seq<Str>, b: seq<Str>)
    requires (forall i :: i in a ==> Item(i)) && (forall i :: i in b ==> Item(i)) && Listed(a) == Listed(b)
    ensures forall i :: i in a <==> i in b
  {
    var x, y := SortDedup(a), SortDedup(b);
    SortDedupKeeps(a);
    SortDedupKeeps(b);
    JoinedItems(x);
    JoinedItems(y);
    if x != [] && y != [] {
      SplitJoin(x, COMMA);
      SplitJoin(y, COMMA);
    }
  }

  lemma JoinedItems(parts: seq<Str>)
    requires forall p :: p in parts ==> Item(p)
    ensures Join(parts, [COMMA]) == [] <==> parts == []
  {
    if parts != [] { assert parts[0] in parts; }
  }

  lemma FrontPlain(x: Settings)
    requires Plain(x)
    ensures forall i :: 0 <= i < |Front(x)| ==> NEWLINE !in Front(x)[i].1
  {
    FrontIs(x);
    ListedPlain(x.features);
    ListedPlain(x.egress);
    TaskNamePlain(x.task);
    hide Front, Listed, TaskName, Decimal, Ascii;
    forall i | 0 <= i < 10 ensures NEWLINE !in Front(x)[i].1 {
      if i == 5 { assert NEWLINE !in Decimal(x.timeout); }
    }
  }

  lemma FrontKeys(x: Settings, y: Settings)
    ensures |Front(x)| == |Front(y)| && forall i :: 0 <= i < |Front(x)| ==> Front(x)[i].0 == Front(y)[i].0
  {
    FrontIs(x);
    FrontIs(y);
    hide Front, Listed, TaskName, Decimal, Ascii;
  }

  lemma FrontSpells(x: Settings, y: Settings)
    requires Plain(x) && Plain(y) && Front(x) == Front(y)
    ensures x.(commands := y.commands, env := y.env, features := y.features, egress := y.egress) == y
    ensures forall f :: f in x.features <==> f in y.features
    ensures forall e :: e in x.egress <==> e in y.egress
  {
    FrontIs(x);
    FrontIs(y);
    hide Front, Listed, TaskName, Decimal, Ascii;
    DecimalInjective(x.timeout, y.timeout);
    TaskNamesDiffer(x.task, y.task);
    ListsAgree(x.features, y.features);
    ListsAgree(x.egress, y.egress);
  }

  // ---- the whole text ----

  lemma VariablesAreNoCommands(env: map<Str, Str>, keys: seq<Str>, tail: Str)
    requires (forall k :: k in keys ==> k in env) && !StartsCommand(tail)
    ensures !StartsCommand(Lines(EnvFields(env, keys)) + tail)
  {
    hide Lines, EnvFields, StartsCommand, StartsVariable;
    if keys == [] {
      NoVariables(env, tail);
    } else {
      VariablesFrom(env, keys, tail);
      NotBoth(Lines(EnvFields(env, keys)) + tail);
    }
  }

  lemma EnvsAgree(e: map<Str, Str>, f: map<Str, Str>)
    requires OrderedKeys(e.Keys) == OrderedKeys(f.Keys) && forall k :: k in OrderedKeys(e.Keys) ==> e[k] == f[k]
    ensures e == f
  {
    hide OrderedKeys;
    assert forall k :: k in e <==> k in OrderedKeys(e.Keys);
    assert forall k :: k in f <==> k in OrderedKeys(f.Keys);
  }

  /** Plain settings are spelled one way only: equal texts have the same settings and the same
      artifact lines. */
  lemma TextsSpellSettings(x: Settings, y: Settings, a: Str, b: Str)
    requires Plain(x) && Plain(y) && Foreign(a) && Foreign(b) && Spelled(x, a) == Spelled(y, b)
    ensures SameSettings(x, y) && a == b
  {
    hide *;
    KeysAreThere(x.env);
    KeysAreThere(y.env);
    var ks, ls := OrderedKeys(x.env.Keys), OrderedKeys(y.env.Keys);
    var u, v := Lines(EnvFields(x.env, ks)) + a, Lines(EnvFields(y.env, ls)) + b;
    SpelledFrom(x, a);
    SpelledFrom(y, b);
    FrontPlain(x);
    FrontPlain(y);
    FrontKeys(x, y);
    PlainParts(x);
    PlainParts(y);
    ForeignParts(a);
    ForeignParts(b);
    VariablesAreNoCommands(x.env, ks, a);
    VariablesAreNoCommands(y.env, ls, b);
    FrontAgrees(Front(x), Front(y), Lines(CommandFields(x.commands)[0..]) +
      u, Lines(CommandFields(y.commands)[0..]) + v);
    CommandsAgree(x.commands, y.commands, 0, u, v);
    EnvAgrees(x.env, y.env, ks, ls, a, b);
    EnvsAgree(x.env, y.env);
    FrontSpells(x, y);
    SettingsAgree(x, y);
  }

  lemma SpelledFrom(x: Settings, tail: Str)
    ensures Spelled(x, tail) ==
      Lines(Front(x)) +
        (Lines(CommandFields(x.commands)[0..]) + (Lines(EnvFields(x.env, OrderedKeys(x.env.Keys))) + tail))
  {
    hide Lines, Front, EnvFields, OrderedKeys, CommandFields;
    assert CommandFields(x.commands)[0..] == CommandFields(x.commands);
  }

  lemma KeysAreThere(env: map<Str, Str>)
    ensures forall k :: k in OrderedKeys(env.Keys) ==> k in env
  {
    hide OrderedKeys;
  }

  lemma ForeignParts(tail: Str)
    requires Foreign(tail)
    ensures !StartsCommand(tail) && !StartsVariable(tail)
  {
    hide StartsCommand, StartsVariable;
  }

  lemma SettingsAgree(x: Settings, y: Settings)
    requires x.(commands := y.commands, env := y.env, features := y.features, egress := y.egress) == y
    requires x.commands == y.commands && x.env == y.env
    requires (forall f :: f in x.features <==> f in y.features) && (forall e :: e in x.egress <==> e in y.egress)
    ensures SameSettings(x, y)
  {
  }

  lemma PlainParts(x: Settings)
    requires Plain(x)
    ensures PlainEnv(x.env) && forall c :: c in x.commands ==> NEWLINE !in c
  {
  }

  /** And the same settings are spelled alike: the order and the repetition of list items do not show. */
  lemma SameSettingsSpellAlike(x: Settings, y: Settings, tail: Str)
    requires SameSettings(x, y)
    ensures Spelled(x, tail) == Spelled(y, tail)
  {
    SortDedupCanonical(x.features, y.features);
    SortDedupCanonical(x.egress, y.egress);
    hide Lines, CommandFields, EnvFields, OrderedKeys, SortDedup, Join;
  }

  /** With a line break in it one command spells two. */
  lemma LineBreakSmears(x: Settings, c: Str, d: Str, tail: Str)
    ensures var smeared := c + ([NEWLINE] + (Indexed(Ascii("pre_commands"), Decimal(1)) + (Ascii("=") + d)));
      Spelled(x.(commands := [smeared]), tail) == Spelled(x.(commands := [c, d]), tail)
  {
    hide *;
    var second := Indexed(Ascii("pre_commands"), Decimal(1));
    var smeared := c + ([NEWLINE] + (second + (Ascii("=") + d)));
    var key := Indexed(Ascii("pre_commands"), Decimal(0));
    FewCommands(smeared, c, d);
    OneLineIs((key, smeared));
    TwoLinesAre((key, c), (second, d));
    SmearedLine(key, second, c, d);
    SpelledIs(x.(commands := [smeared]), tail);
    SpelledIs(x.(commands := [c, d]), tail);
    SameFront(x, [smeared], [c, d]);
  }

  lemma FewCommands(s: Str, c: Str, d: Str)
    ensures CommandFields([s]) == [(Indexed(Ascii("pre_commands"), Decimal(0)), s)]
    ensures CommandFields([c, d]) ==
      [(Indexed(Ascii("pre_commands"), Decimal(0)), c), (Indexed(Ascii("pre_commands"), Decimal(1)), d)]
  {
    hide Indexed, Ascii, Decimal;
  }

  lemma SmearedLine(key: Str, second: Str, c: Str, d: Str)
    ensures Line((key, c + ([NEWLINE] + (second + (Ascii("=") + d))))) == Line((key, c)) + Line((second, d))
  {
    hide Ascii;
  }

  lemma SameFront(x: Settings, c: seq<Str>, d: seq<Str>)
    ensures Front(x.(commands := c)) == Front(x.(commands := d))
  {
  }

  lemma OneLineIs(f: Field)
    ensures Lines([f]) == Line(f)
  {
    hide Line;
    assert [f][..0] == [];
  }

  lemma TwoLinesAre(f: Field, g: Field)
    ensures Lines([f, g]) == Line(f) + Line(g)
  {
    hide Line;
    assert [f, g] == [f] + [g];
    LinesConcat([f], [g]);
    OneLineIs(f);
    OneLineIs(g);
  }

  /** With a closing bracket in its name one variable spells another. */
  lemma BracketSmears(x: Settings, k: Str, v: Str, rest: Str, tail: Str)
    ensures var long := k + ([CLOSING] + (Ascii("=") + v));
      Spelled(x.(env := map[k := v + ([CLOSING] + (Ascii("=") + rest))]), tail) ==
      Spelled(x.(env := map[long := rest]), tail)
  {
    var long, value := k + ([CLOSING] + (Ascii("=") + v)), v + ([CLOSING] + (Ascii("=") + rest));
    var e, f := map[k := value], map[long := rest];
    OneKey(k);
    OneKey(long);
    assert e.Keys == {k} && f.Keys == {long};
    var a, b := EnvFields(e, [k]), EnvFields(f, [long]);
    assert a == [(Indexed(Ascii("env"), k), value)] && b == [(Indexed(Ascii("env"), long), rest)];
    OneLineIs(a[0]);
    OneLineIs(b[0]);
    SameVariableLine(k, v, rest);
    hide Line, Lines, Front, CommandFields, EnvFields, OrderedKeys, Ascii, Indexed;
    SpelledIs(x.(env := e), tail);
    SpelledIs(x.(env := f), tail);
    SameFrontOfEnv(x, e, f);
  }

  lemma SameVariableLine(k: Str, v: Str, rest: Str)
    ensures Line((Indexed(Ascii("env"), k), v + ([CLOSING] + (Ascii("=") + rest)))) ==
      Line((Indexed(Ascii("env"), k + ([CLOSING] + (Ascii("=") + v))), rest))
  {
    assert Ascii("]") == [CLOSING];
  }

  lemma OneKey(k: Str)
    ensures OrderedKeys({k}) == [k]
  {
    hide OrderedKeys;
    OrderedKeysUnique([k], {k});
  }

  lemma SameFrontOfEnv(x: Settings, e: map<Str, Str>, f: map<Str, Str>)
    ensures Front(x.(env := e)) == Front(x.(env := f))
  {
  }

  // ---- and the cache key ----

  /** Builds whose text is that of a profile from plain settings have one key only when all their
      settings are the same too, or they exhibit a hash collision. */
  lemma EqualKeysMeanSameSettings(hash: Str -> Str, a: Fingerprint.Build, b: Fingerprint.Build, r: Resolution,
                                  t: Resolution, rules: ArtifactRules)
    requires Fingerprint.PrintsHex(hash) && Fingerprint.WellFormed(a) && Fingerprint.WellFormed(b)
    requires a.canonical == CanonicalText(r, rules) && b.canonical == CanonicalText(t, rules)
    requires Plain(SettingsOf(r)) && Plain(SettingsOf(t))
    requires Foreign(rules.lines(SpecOf(r, rules))) && Foreign(rules.lines(SpecOf(t, rules)))
    requires hash(Fingerprint.LastPreimage(hash, a)) == hash(Fingerprint.LastPreimage(hash, b))
    ensures
      || Fingerprint.CollisionBetween(hash, a, b)
      || (Fingerprint.SameBuild(a, b) && SameSettings(SettingsOf(r), SettingsOf(t))
          && rules.lines(SpecOf(r, rules)) == rules.lines(SpecOf(t, rules)))
  {
    hide *;
    Fingerprint.EqualKeysMeanSameBuild(hash, a, b);
    if Fingerprint.SameBuild(a, b) {
      SameBuildSameText(a, b);
      CanonicalIsSpelled(r, rules);
      CanonicalIsSpelled(t, rules);
      TextsSpellSettings(SettingsOf(r), SettingsOf(t), rules.lines(SpecOf(r, rules)), rules.lines(SpecOf(t, rules)));
    }
  }

  lemma SameBuildSameText(a: Fingerprint.Build, b: Fingerprint.Build)
    requires Fingerprint.SameBuild(a, b)
    ensures a.canonical == b.canonical
  {
  }
}
