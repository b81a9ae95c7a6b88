/** Bytes and UTF-8 validity as the engine decides it (section 4 of RFC 3629). */
module Utf8 {
  type byte = x: int | 0 <= x < 256

  /** (b & 0xc0) == 0x80 */
  predicate Continuation(b: byte) { 128 <= b < 192 }

  /** Bytes of the first character, or 0 when there is none or it is malformed. */
  function Width(s: seq<byte>): (w: nat)
    ensures w <= 4 && w <= |s|
  {
    if s == [] then 0
    else if s[0] < 0x80 then 1
    else if 0xC2 <= s[0] <= 0xDF then
      if |s| >= 2 && Continuation(s[1]) then 2 else 0
    else if s[0] == 0xE0 then
      if |s| >= 3 && 0xA0 <= s[1] <= 0xBF && Continuation(s[2]) then 3 else 0
    else if s[0] == 0xED then
      if |s| >= 3 && 0x80 <= s[1] <= 0x9F && Continuation(s[2]) then 3 else 0
    else if 0xE1 <= s[0] <= 0xEF then
      if |s| >= 3 && Continuation(s[1]) && Continuation(s[2]) then 3 else 0
    else if s[0] == 0xF0 then
      if |s| >= 4 && 0x90 <= s[1] <= 0xBF && Continuation(s[2]) && Continuation(s[3]) then 4 else 0
    else if 0xF1 <= s[0] <= 0xF3 then
      if |s| >= 4 && Continuation(s[1]) && Continuation(s[2]) && Continuation(s[3]) then 4 else 0
    else if s[0] == 0xF4 then
      if |s| >= 4 && 0x80 <= s[1] <= 0x8F && Continuation(s[2]) && Continuation(s[3]) then 4 else 0
    else 0
  }

  predicate Valid(s: seq<byte>) {
    s == [] || (Width(s) > 0 && Valid(s[Width(s)..]))
  }

  /** A position between characters, as the code tests it. */
  predicate Boundary(s: seq<byte>, i: int) {
    0 <= i <= |s| && (i < |s| ==> !Continuation(s[i]))
  }

  lemma WidthIsLocal(s: seq<byte>, t: seq<byte>)
    requires Width(s) > 0 && |t| >= Width(s) && s[..Width(s)] == t[..Width(s)]
    ensures Width(t) == Width(s)
  {
    var w := Width(s);
    forall k | 0 <= k < w ensures s[k] == t[k] {
      assert s[..w][k] == t[..w][k];
    }
  }

  lemma {:induction false} ConcatValid(a: seq<byte>, b: seq<byte>)
    requires Valid(a) && Valid(b)
    ensures Valid(a + b)
  {
    if a == [] {
      assert a + b == b;
    } else {
      var w := Width(a);
      assert (a + b)[..w] == a[..w] && (a + b)[w..] == a[w..] + b;
      WidthIsLocal(a, a + b);
      ConcatValid(a[w..], b);
      FirstThenValid(a + b, w, a[w..] + b);
    }
  }

  lemma PrefixValid(s: seq<byte>, k: nat)
    requires Width(s) > 0 && Width(s) <= k <= |s|
    requires Valid(s[Width(s)..][..k - Width(s)])
    ensures Valid(s[..k])
  {
    var w := Width(s);
    WidthIsLocal(s, s[..k]);
    assert s[..k][w..] == s[w..][..k - w];
    FirstThenValid(s[..k], w, s[w..][..k - w]);
  }

  lemma FirstThenValid(s: seq<byte>, w: nat, rest: seq<byte>)
    requires w == Width(s) > 0 && rest == s[w..] && Valid(rest)
    ensures Valid(s)
  {
  }

  /** Position i of s is in the character that starts at k. */
  ghost predicate InChar(s: seq<byte>, k: int, i: int) {
    && 0 <= k <= i <= k + 3 && i < |s| && !Continuation(s[k])
    && (forall j :: k < j <= i ==> Continuation(s[j]))
    && (k < i ==> s[k] >= 0xC2)
  }

  lemma FirstChar(s: seq<byte>, i: nat)
    requires i < Width(s)
    ensures InChar(s, 0, i)
  {
  }

  lemma ShiftChar(s: seq<byte>, w: nat, k: nat, i: nat)
    requires w <= |s| && InChar(s[w..], k, i)
    ensures InChar(s, k + w, i + w)
  {
    assert forall j :: k <= j <= i ==> s[w..][j] == s[j + w];
    forall j | k + w < j <= i + w ensures Continuation(s[j]) {
      assert s[w..][j - w] == s[j];
    }
  }

  /** Every byte belongs to a character of at most four bytes, and text divides before it. */
  lemma {:induction false} CharAt(s: seq<byte>, i: nat) returns (k: nat)
    requires Valid(s) && i < |s|
    ensures InChar(s, k, i) && Valid(s[..k]) && Valid(s[k..])
  {
    var w := Width(s);
    if i < w {
      k := 0;
      FirstChar(s, i);
      assert s[..0] == [] && s[0..] == s;
    } else {
      var k' := CharAt(s[w..], i - w);
      k := k' + w;
      ShiftChar(s, w, k', i - w);
      assert s[w..][k'..] == s[k..];
      PrefixValid(s, k);
    }
  }

  /** Cutting valid text at a boundary gives two valid texts. */
  lemma SplitValid(s: seq<byte>, i: nat)
    requires Valid(s) && Boundary(s, i)
    ensures Valid(s[..i]) && Valid(s[i..])
  {
    if i < |s| {
      var k := CharAt(s, i);
      assert k == i;
    } else {
      assert s[..i] == s && s[i..] == [];
    }
  }

  /** No more than three continuation bytes in a row. */
  lemma ShortRuns(s: seq<byte>, i: nat)
    requires Valid(s) && i + 3 < |s|
    ensures exists j :: i <= j <= i + 3 && !Continuation(s[j])
  {
    var k := CharAt(s, i + 3);
  }

  /** Text resumes after an ASCII byte on a boundary. */
  lemma AfterAscii(s: seq<byte>, i: nat)
    requires Valid(s) && i < |s| && s[i] < 128
    ensures Boundary(s, i) && Boundary(s, i + 1)
  {
    if i + 1 < |s| {
      var k := CharAt(s, i + 1);
      assert k == i + 1;
    }
  }

  lemma FirstIsBoundary(s: seq<byte>)
    requires Valid(s)
    ensures Boundary(s, 0)
  {
  }

  /** The slice between two boundaries is valid. */
  lemma SliceValid(s: seq<byte>, i: nat, j: nat)
    requires Valid(s) && i <= j && Boundary(s, i) && Boundary(s, j)
    ensures Valid(s[i..j])
  {
    SplitValid(s, j);
    assert i < j ==> s[..j][i] == s[i];
    SplitValid(s[..j], i);
    assert s[..j][i..] == s[i..j];
  }
}
