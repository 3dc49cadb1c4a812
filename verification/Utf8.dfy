/** Character boundaries in UTF-8 text (sections 3 and 4 of RFC 3629). */
module Utf8 {
  import opened Text

  predicate IsCont(b: byte) {
    0x80 <= b < 0xC0
  }

  /** Bytes in the character a lead byte announces; 0 when it announces none. */
  function Width(lead: byte): nat {
    if lead < 0x80 then 1
    else if 0xC2 <= lead < 0xE0 then 2
    else if 0xE0 <= lead < 0xF0 then 3
    else if 0xF0 <= lead < 0xF5 then 4
    else 0
  }

  /** Over-long forms, surrogates and values past U+10FFFF are excluded by the second byte. */
  predicate SecondByteOk(lead: byte, second: byte) {
    && (lead == 0xE0 ==> 0xA0 <= second)
    && (lead == 0xED ==> second < 0xA0)
    && (lead == 0xF0 ==> 0x90 <= second)
    && (lead == 0xF4 ==> second < 0x90)
  }

  predicate StartsWithChar(s: Str) {
    && s != []
    && var w := Width(s[0]);
    && 0 < w <= |s|
    && (forall k :: 0 < k < w ==> IsCont(s[k]))
    && (w > 1 ==> SecondByteOk(s[0], s[1]))
  }

  predicate Valid(s: Str) {
    s == [] || (StartsWithChar(s) && Valid(s[Width(s[0])..]))
  }

  /** `str::is_char_boundary`. */
  predicate IsBoundary(s: Str, i: nat) {
    i == 0 || i == |s| || (i < |s| && !IsCont(s[i]))
  }

  lemma {:induction false} ValidSplit(s: Str, i: nat)
    requires Valid(s) && i <= |s| && IsBoundary(s, i)
    ensures Valid(s[..i]) && Valid(s[i..])
  {
    if i == 0 {
      assert s[..0] == [] && s[0..] == s;
    } else {
      var w := Width(s[0]);
      ValidSplit(s[w..], i - w);
      assert s[w..][..i - w] == s[..i][w..];
      assert s[w..][i - w..] == s[i..];
    }
  }

  lemma {:induction false} ValidConcat(a: Str, b: Str)
    requires Valid(a) && Valid(b)
    ensures Valid(a + b)
  {
    if a == [] {
      assert a + b == b;
    } else {
      var w := Width(a[0]);
      ValidConcat(a[w..], b);
      FirstCharStays(a, b);
      hide StartsWithChar, Width;
    }
  }

  lemma FirstCharStays(a: Str, b: Str)
    requires StartsWithChar(a)
    ensures StartsWithChar(a + b) && (a + b)[0] == a[0] && Width(a[0]) <= |a|
    ensures (a + b)[Width(a[0])..] == a[Width(a[0])..] + b
  {
    var w := Width(a[0]);
    assert forall k :: 0 <= k < w ==> (a + b)[k] == a[k];
  }

  lemma {:induction false} ValidAscii(s: Str)
    requires forall b :: b in s ==> b < 0x80
    ensures Valid(s)
  {
    if s != [] {
      assert s[0] in s;
      assert forall b :: b in s[1..] ==> b in s;
      ValidAscii(s[1..]);
    }
  }

  /** No four bytes in a row are all continuation bytes. */
  lemma {:induction false} ContRun(s: Str, i: nat)
    requires Valid(s) && i + 4 <= |s|
    ensures exists k :: i <= k < i + 4 && !IsCont(s[k])
  {
    var w := Width(s[0]);
    if i == 0 {
      assert !IsCont(s[0]);
    } else if i >= w {
      ContRun(s[w..], i - w);
      var k :| i - w <= k < i - w + 4 && !IsCont(s[w..][k]);
      assert !IsCont(s[k + w]);
    } else {
      assert Valid(s[w..]) && w < |s|;
      assert !IsCont(s[w]);
    }
  }

  /** The largest boundary at or below `max`. */
  function Floor(s: Str, max: nat): (r: nat)
    ensures r <= |s| && r <= max && IsBoundary(s, r)
    ensures forall j :: r < j <= max && j <= |s| ==> !IsBoundary(s, j)
  {
    if |s| <= max then |s|
    else if IsBoundary(s, max) then max
    else Floor(s, max - 1)
  }

  /** The smallest boundary at or above `start`. */
  function Ceil(s: Str, start: nat): (r: nat)
    requires start <= |s|
    ensures start <= r <= |s| && IsBoundary(s, r)
    ensures forall j :: start <= j < r ==> !IsBoundary(s, j)
    decreases |s| - start
  {
    if IsBoundary(s, start) then start else Ceil(s, start + 1)
  }

  /** Rounding to a boundary moves a cut by at most three bytes. */
  lemma RoundingIsSmall(s: Str, i: nat)
    requires Valid(s) && i <= |s|
    ensures Floor(s, i) + 3 >= i
    ensures Ceil(s, i) <= i + 3
  {
    if 3 <= i < |s| {
      ContRun(s, i - 3);
      var k :| i - 3 <= k < i + 1 && !IsCont(s[k]);
      assert IsBoundary(s, k);
    }
    if i + 4 <= |s| {
      ContRun(s, i);
      var k :| i <= k < i + 4 && !IsCont(s[k]);
      assert IsBoundary(s, k);
    }
  }
}
