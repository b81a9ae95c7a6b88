/** ASCII words: the bytes of a string literal, and where a word starts in a text. */
module Words {
  import opened Utf8

  /** The bytes of a string; the strings in use are ASCII. */
  function Ascii(s: string): (r: seq<byte>)
    ensures |r| == |s| && IsAscii(r)
  {
    seq(|s|, i requires 0 <= i < |s| => if s[i] as int < 128 then s[i] as int else 63)
  }

  predicate IsAscii(s: seq<byte>) {
    forall i :: 0 <= i < |s| ==> s[i] < 128
  }

  predicate Starts(text: seq<byte>, pos: nat, word: seq<byte>) {
    pos + |word| <= |text| && text[pos..pos + |word|] == word
  }

  lemma {:induction false} AsciiIsText(s: seq<byte>)
    requires IsAscii(s)
    ensures Utf8.Valid(s)
  {
    if s != [] { AsciiIsText(s[1..]); }
  }
}
