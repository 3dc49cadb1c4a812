/** The line a blocked call offers for pasting, and what TOML 1.0 reads in it
    (crates/rc-agent/src/consent.rs). */
module Quoting {
  import opened Text
  import opened Paths
  import opened Consent
  import Profile

  const QUOTE: byte := 34
  const BLANK: byte := 32
  const TAB: byte := 9
  const DELETE: byte := 127
  const OPEN: byte := 91
  const CLOSE: byte := 93

  // ---- writing ----

  function Quoted(e: Str): Str {
    [QUOTE] + (e + [QUOTE])
  }

  /** The entries in quotes, and a closing bracket. */
  function Items(entries: seq<Str>): Str
    requires entries != []
  {
    Quoted(entries[0]) + if |entries| == 1 then [CLOSE] else [COMMA, BLANK] + Items(entries[1..])
  }

  function WrittenList(entries: seq<Str>): Str {
    [OPEN] + if entries == [] then [CLOSE] else Items(entries)
  }

  /** What is still to be written when `i` entries are. */
  function Unwritten(entries: seq<Str>, i: nat): Str
    requires i <= |entries|
  {
    if i == |entries| then [CLOSE] else (if i == 0 then [] else [COMMA, BLANK]) + Items(entries[i..])
  }

  lemma OneMoreWritten(entries: seq<Str>, i: nat, written: Str)
    requires i < |entries|
    ensures written + Unwritten(entries, i) ==
      (written + (if i == 0 then [] else [COMMA, BLANK]) + Quoted(entries[i])) + Unwritten(entries, i + 1)
  {
    hide Quoted;
    assert entries[i..][0] == entries[i] && entries[i..][1..] == entries[i + 1..];
    var before, e, after := if i == 0 then [] else [COMMA, BLANK], Quoted(entries[i]), Unwritten(entries, i + 1);
    assert Items(entries[i..]) == e + after;
    assert written + (before + (e + after)) == (written + before + e) + after;
  }

  lemma NothingWritten(entries: seq<Str>)
    ensures WrittenList(entries) == [OPEN] + Unwritten(entries, 0)
  {
    hide Items;
    assert entries[0..] == entries;
  }

  lemma AllWritten(entries: seq<Str>)
    ensures Unwritten(entries, |entries|) == [CLOSE]
  {
  }

  /** `join`, as the message is put together. */
  method WriteList(entries: seq<Str>) returns (r: Str)
    ensures r == WrittenList(entries)
  {
    hide Unwritten, WrittenList, Quoted;
    NothingWritten(entries);
    r := [OPEN];
    for i := 0 to |entries|
      invariant WrittenList(entries) == r + Unwritten(entries, i)
    {
      OneMoreWritten(entries, i, r);
      assert r + [] == r;
      if i > 0 {
        r := r + [COMMA, BLANK];
      }
      r := r + Quoted(entries[i]);
    }
    AllWritten(entries);
    r := r + [CLOSE];
  }

  // ---- reading ----

  /** What may not stand in a basic string as it is: a quotation mark, a backslash, and control
      characters other than tab (section "String" of TOML 1.0). */
  predicate Special(b: byte) {
    b == QUOTE || b == BACKSLASH || (b < 32 && b != TAB) || b == DELETE
  }

  predicate Quotable(e: Str) {
    forall b :: b in e ==> !Special(b)
  }

  /** The rest of a basic string without escapes, up to its closing quotation mark. */
  function ReadString(text: Str): (r: Option<(Str, Str)>)
    ensures r.Some? ==> |r.value.1| < |text| && Quotable(r.value.0)
  {
    if text == [] then None
    else if text[0] == QUOTE then Some(([], text[1..]))
    else if Special(text[0]) then None
    else
      match ReadString(text[1..])
      case None => None
      case Some((e, rest)) => Some(([text[0]] + e, rest))
  }

  /** The rest of an array of strings. */
  function ReadItems(text: Str): (r: Option<seq<Str>>)
    ensures r.Some? ==> forall e :: e in r.value ==> Quotable(e)
    decreases |text|
  {
    if text == [] || text[0] != QUOTE then None
    else
      match ReadString(text[1..])
      case None => None
      case Some((e, rest)) =>
        if rest == [CLOSE] then Some([e])
        else if [COMMA, BLANK] <= rest then
          match ReadItems(rest[2..])
          case None => None
          case Some(es) => Some([e] + es)
        else None
  }

  function ReadList(text: Str): (r: Option<seq<Str>>)
    ensures r.Some? ==> forall e :: e in r.value ==> Quotable(e)
  {
    if text == [OPEN, CLOSE] then Some([])
    else if text != [] && text[0] == OPEN then ReadItems(text[1..])
    else None
  }

  // ---- both ----

  lemma {:induction false} StringReads(e: Str, rest: Str)
    requires Quotable(e)
    ensures ReadString(e + ([QUOTE] + rest)) == Some((e, rest))
  {
    var text := e + ([QUOTE] + rest);
    if e == [] {
      assert text[1..] == rest;
    } else {
      assert e[0] in e && text[0] == e[0] && text[1..] == e[1..] + ([QUOTE] + rest);
      StringReads(e[1..], rest);
      assert e == [e[0]] + e[1..];
    }
  }

  /** One entry and what follows it. */
  lemma ItemReads(e: Str, rest: Str)
    requires Quotable(e)
    ensures var r := ReadItems(Quoted(e) + rest);
      && (rest == [CLOSE] ==> r == Some([e]))
      && (rest != [CLOSE] && [COMMA, BLANK] <= rest && ReadItems(rest[2..]).Some? ==>
          r == Some([e] + ReadItems(rest[2..]).value))
  {
    var text := Quoted(e) + rest;
    assert text[1..] == e + ([QUOTE] + rest);
    StringReads(e, rest);
    hide ReadString, Quotable;
  }

  lemma LastItem(entries: seq<Str>)
    requires |entries| == 1
    ensures Items(entries) == Quoted(entries[0]) + [CLOSE] && entries == [entries[0]]
  {
    hide Quoted;
  }

  lemma FirstItem(entries: seq<Str>)
    requires |entries| > 1
    ensures Items(entries) == Quoted(entries[0]) + ([COMMA, BLANK] + Items(entries[1..]))
    ensures ([COMMA, BLANK] + Items(entries[1..]))[2..] == Items(entries[1..])
    ensures entries == [entries[0]] + entries[1..]
  {
    hide Quoted;
  }

  lemma {:induction false} ItemsRead(entries: seq<Str>)
    requires entries != [] && forall e :: e in entries ==> Quotable(e)
    ensures ReadItems(Items(entries)) == Some(entries)
  {
    hide *;
    assert entries[0] in entries;
    if |entries| == 1 {
      LastItem(entries);
      ItemReads(entries[0], [CLOSE]);
    } else {
      FirstItem(entries);
      ItemsRead(entries[1..]);
      ItemReads(entries[0], [COMMA, BLANK] + Items(entries[1..]));
    }
  }

  /** The line reads back as the entries exactly when none of them holds a quotation mark, a backslash
      or a control character. */
  lemma ListReadsExactly(entries: seq<Str>)
    ensures ReadList(WrittenList(entries)) == Some(entries) <==> forall e :: e in entries ==> Quotable(e)
  {
    hide ReadItems, ReadString, Quotable;
    if forall e :: e in entries ==> Quotable(e) {
      if entries != [] {
        ItemsRead(entries);
        ItemsAreLong(entries);
        hide Items;
        assert WrittenList(entries)[1..] == Items(entries);
      }
    }
  }

  lemma ItemsAreLong(entries: seq<Str>)
    requires entries != []
    ensures |Items(entries)| > 1
  {
  }

  /** Pasting the line approves exactly the offered directories and what lies inside them, provided no
      name on the way needs an escape; otherwise what is read is not what was offered. */
  lemma PastingTheLineApproves(canonicalize: Path -> Option<Path>, root: Path, discovered: seq<Path>, later: seq<Path>)
    requires Canonical(root) && Offered(canonicalize, root, discovered) && discovered != [] && later != []
    ensures var entries := Snippet(root, discovered); var read := ReadList(WrittenList(entries));
      if forall e :: e in entries ==> Quotable(e) then
        && read.Some? && Evaluate(canonicalize, root, discovered, Some(Profile.Allow(read.value))) ==
          Approved(discovered)
        && (Evaluate(canonicalize, root, later, Some(Profile.Allow(read.value))) == Approved(later) <==>
            forall d :: d in later ==> CoveredBy(d, discovered))
      else
        read != Some(entries)
  {
    hide *;
    ListReadsExactly(Snippet(root, discovered));
    PastingTheSnippetApproves(canonicalize, root, discovered, later);
  }
}
