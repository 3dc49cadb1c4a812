/** Strings as their UTF-8 bytes, and the few textual operations every component shares. */
module Text {
  newtype byte = b: int | 0 <= b < 256

  /** A Rust `str` is its bytes; `len()` is the byte count. */
  type Str = seq<byte>

  datatype Option<+T> = None | Some(value: T)

  datatype Result<+T, +E> = Ok(value: T) | Err(error: E)

  const NUL: byte := 0
  const NEWLINE: byte := 10
  const CR: byte := 13
  const COMMA: byte := 44
  const SLASH: byte := 47
  const BACKSLASH: byte := 92
  const DOT: Str := [46]
  const DOTS: Str := [46, 46]

  /** The bytes of an ASCII literal. */
  function Ascii(s: string): (r: Str)
    ensures |r| == |s|
  {
    seq(|s|, i requires 0 <= i < |s| => if s[i] < 128 as char then s[i] as int as byte else 63)
  }

  /** ASCII case folding, the equality of `eq_ignore_ascii_case`. */
  function Fold(name: Str): (r: Str)
    ensures |r| == |name|
  {
    seq(|name|, i requires 0 <= i < |name| => if 65 <= name[i] <= 90 then name[i] + 32 else name[i])
  }

  /** Decimal digits, most significant first. */
  function Decimal(n: nat): (r: Str)
    ensures r != []
    ensures forall b :: b in r ==> 48 <= b <= 57
  {
    if n < 10 then [48 + n as byte] else Decimal(n / 10) + [48 + (n % 10) as byte]
  }

  /** The number a digit string spells. */
  function DecimalValue(s: Str): int {
    if s == [] then 0 else 10 * DecimalValue(s[..|s| - 1]) + (s[|s| - 1] as int - 48)
  }

  lemma {:induction false} DecimalRoundTrip(n: nat)
    ensures DecimalValue(Decimal(n)) == n
  {
    if n < 10 {
      assert Decimal(n)[..0] == [];
    } else {
      DecimalRoundTrip(n / 10);
      assert Decimal(n)[..|Decimal(n)| - 1] == Decimal(n / 10);
    }
  }

  /** `digits` is how `n` is written, without leading zeros. */
  ghost predicate Spells(digits: Str, n: nat) {
    && digits != [] && (forall b :: b in digits ==> 48 <= b <= 57)
    && (|digits| > 1 ==> digits[0] != 48)
    && DecimalValue(digits) == n
  }

  lemma {:induction false} DecimalSpells(n: nat)
    ensures Spells(Decimal(n), n)
  {
    DecimalRoundTrip(n);
    if n >= 10 {
      DecimalSpells(n / 10);
      if n / 10 >= 10 { assert Decimal(n)[0] == Decimal(n / 10)[0]; }
    }
  }

  lemma DecimalInjective(m: nat, n: nat)
    requires Decimal(m) == Decimal(n)
    ensures m == n
  {
    DecimalRoundTrip(m);
    DecimalRoundTrip(n);
  }

  /** `parts.join(sep)`. */
  function Join(parts: seq<Str>, sep: Str): Str {
    if parts == [] then []
    else if |parts| == 1 then parts[0]
    else parts[0] + sep + Join(parts[1..], sep)
  }

  lemma {:induction false} JoinAppend(parts: seq<Str>, last: Str, sep: Str)
    requires parts != []
    ensures Join(parts + [last], sep) == Join(parts, sep) + sep + last
  {
    var all := parts + [last];
    assert all[0] == parts[0];
    assert all[1..] == parts[1..] + [last];
    if |parts| == 1 {
      assert all[1..] == [last];
      assert Join(all[1..], sep) == last;
    } else {
      JoinAppend(parts[1..], last, sep);
      assert Join(all, sep) == parts[0] + sep + (Join(parts[1..], sep) + sep + last);
    }
  }

  /** `text.split(sep)` for a one-byte separator: always at least one piece. */
  function Split(text: Str, sep: byte): (r: seq<Str>)
    ensures r != []
  {
    if text == [] then [[]]
    else if text[0] == sep then [[]] + Split(text[1..], sep)
    else
      var rest := Split(text[1..], sep);
      [[text[0]] + rest[0]] + rest[1..]
  }

  /** A byte that neither the parts nor the separator hold is not in the join. */
  lemma {:induction false} JoinWithout(parts: seq<Str>, sep: Str, bad: byte)
    requires bad !in sep && forall p :: p in parts ==> bad !in p
    ensures bad !in Join(parts, sep)
  {
    if parts != [] {
      assert parts[0] in parts;
      if |parts| > 1 { JoinWithout(parts[1..], sep, bad); }
    }
  }

  lemma {:induction false} SplitOfPrefix(piece: Str, rest: Str, sep: byte)
    requires sep !in piece
    ensures Split(piece, sep) == [piece]
    ensures Split(piece + [sep] + rest, sep) == [piece] + Split(rest, sep)
  {
    var whole := piece + [sep] + rest;
    if piece == [] {
      assert whole[1..] == rest;
    } else {
      SplitOfPrefix(piece[1..], rest, sep);
      assert whole[1..] == piece[1..] + [sep] + rest;
      assert piece == [piece[0]] + piece[1..];
    }
  }

  /** Joining separator-free parts and splitting again gives the parts back. */
  lemma {:induction false} SplitJoin(parts: seq<Str>, sep: byte)
    requires parts != []
    requires forall p :: p in parts ==> sep !in p
    ensures Split(Join(parts, [sep]), sep) == parts
  {
    if |parts| == 1 {
      SplitOfPrefix(parts[0], [], sep);
    } else {
      SplitJoin(parts[1..], sep);
      SplitOfPrefix(parts[0], Join(parts[1..], [sep]), sep);
      assert parts == [parts[0]] + parts[1..];
    }
  }
}
