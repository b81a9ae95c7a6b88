/** What valid text is: the encoding of some characters (sections 3 and 4 of RFC 3629). */
module Utf8Meaning {
  import opened Utf8

  type scalar = c: int | 0 <= c < 0xD800 || 0xE000 <= c <= 0x10FFFF

  /** A byte that carries six bits. */
  function Tail(bits: nat): byte { 128 + bits % 64 }

  /** A character in as few bytes as hold its bits; each but the first carries six. */
  function Character(c: scalar): (s: seq<byte>)
    ensures 1 <= |s| <= 4
  {
    var n: nat := c;
    if n < 0x80 then [n]
    else if n < 0x800 then [0xC0 + n / 64, Tail(n)]
    else if n < 0x10000 then [0xE0 + n / 64 / 64, Tail(n / 64), Tail(n)]
    else Largest(n)
  }

  function Largest(n: nat): (s: seq<byte>)
    requires 0x10000 <= n <= 0x10FFFF
    ensures |s| == 4
  {
    assert n / 64 / 64 / 64 <= 4;
    [0xF0 + n / 64 / 64 / 64, Tail(n / 64 / 64), Tail(n / 64), Tail(n)]
  }

  function Characters(cs: seq<scalar>): seq<byte> {
    if cs == [] then [] else Character(cs[0]) + Characters(cs[1..])
  }

  /** What the second byte may be after the first. */
  lemma SecondOfThree(n: nat)
    requires 0x800 <= n < 0xD800 || 0xE000 <= n < 0x10000
    ensures var a, b := 0xE0 + n / 64 / 64, 128 + n / 64 % 64;
            0xE0 <= a <= 0xEF && (a == 0xE0 ==> b >= 0xA0) && (a == 0xED ==> b <= 0x9F)
  {
  }

  lemma SecondOfFour(n: nat)
    requires 0x10000 <= n <= 0x10FFFF
    ensures var a, b := 0xF0 + n / 64 / 64 / 64, 128 + n / 64 / 64 % 64;
            0xF0 <= a <= 0xF4 && (a == 0xF0 ==> b >= 0x90) && (a == 0xF4 ==> b <= 0x8F)
  {
  }

  lemma WidthOf(c: scalar, rest: seq<byte>)
    ensures Width(Character(c) + rest) == |Character(c)|
  {
    var s, n: nat := Character(c), c;
    var t := s + rest;
    assert t[0] == s[0] && (|s| > 1 ==> t[1] == s[1]) && (|s| > 2 ==> t[2] == s[2]) && (|s| > 3 ==> t[3] == s[3]);
    if 0x800 <= n < 0x10000 { SecondOfThree(n); }
    if 0x10000 <= n { SecondOfFour(n); }
  }

  lemma Two(a: nat, b: nat) returns (n: nat)
    requires 0xC2 <= a <= 0xDF && 128 <= b < 192
    ensures 0x80 <= n < 0x800 && a == 0xC0 + n / 64 && b == 128 + n % 64
  {
    n := (a - 0xC0) * 64 + (b - 128);
  }

  lemma Three(a: nat, b: nat, c: nat) returns (n: nat)
    requires 0xE0 <= a <= 0xEF && 128 <= b < 192 && 128 <= c < 192
    requires (a == 0xE0 ==> b >= 0xA0) && (a == 0xED ==> b <= 0x9F)
    ensures 0x800 <= n < 0xD800 || 0xE000 <= n < 0x10000
    ensures a == 0xE0 + n / 64 / 64 && b == 128 + n / 64 % 64 && c == 128 + n % 64
  {
    var front := (a - 0xE0) * 64 + (b - 128);
    n := front * 64 + (c - 128);
    assert n / 64 == front;
  }

  lemma Four(a: nat, b: nat, c: nat, d: nat) returns (n: nat)
    requires 0xF0 <= a <= 0xF4 && 128 <= b < 192 && 128 <= c < 192 && 128 <= d < 192
    requires (a == 0xF0 ==> b >= 0x90) && (a == 0xF4 ==> b <= 0x8F)
    ensures 0x10000 <= n <= 0x10FFFF
    ensures a == 0xF0 + n / 64 / 64 / 64 && b == 128 + n / 64 / 64 % 64 && c == 128 + n / 64 % 64 && d == 128 + n % 64
  {
    var front := (a - 0xF0) * 64 + (b - 128);
    var middle := front * 64 + (c - 128);
    n := middle * 64 + (d - 128);
    assert n / 64 == middle && middle / 64 == front;
  }

  /** The character in front. */
  lemma Front(s: seq<byte>) returns (c: scalar)
    requires Width(s) > 0
    ensures s[..Width(s)] == Character(c)
  {
    match Width(s)
    case 1 => c := s[0];
    case 2 => c := Two(s[0], s[1]);
    case 3 => c := Three(s[0], s[1], s[2]);
    case _ => c := Four(s[0], s[1], s[2], s[3]);
  }

  /** Every sequence of characters is valid text, and all valid text is one. */
  lemma {:induction false} CharactersAreValid(cs: seq<scalar>)
    ensures Valid(Characters(cs))
  {
    if cs != [] {
      CharactersAreValid(cs[1..]);
      WidthOf(cs[0], Characters(cs[1..]));
      FirstThenValid(Characters(cs), |Character(cs[0])|, Characters(cs[1..]));
    }
  }

  lemma {:induction false} ValidIsCharacters(s: seq<byte>) returns (cs: seq<scalar>)
    requires Valid(s)
    ensures s == Characters(cs)
  {
    if s == [] {
      cs := [];
    } else {
      var c := Front(s);
      var more := ValidIsCharacters(s[Width(s)..]);
      cs := [c] + more;
      assert s == s[..Width(s)] + s[Width(s)..];
    }
  }

  lemma ValidIff(s: seq<byte>)
    ensures Valid(s) <==> exists cs :: Characters(cs) == s
  {
    if Valid(s) { var cs := ValidIsCharacters(s); }
    if cs :| Characters(cs) == s { CharactersAreValid(cs); }
  }
}
