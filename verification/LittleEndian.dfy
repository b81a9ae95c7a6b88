/** Unsigned integers as little-endian bytes. */
module LittleEndian {
  import opened Utf8

  const HALF: nat := 0x1_0000_0000
  const WORD: nat := 0x1_0000_0000_0000_0000

  /** n in so many bytes, the least significant first. */
  function Little(n: nat, bytes: nat): (s: seq<byte>)
    ensures |s| == bytes
  {
    if bytes == 0 then [] else [n % 256] + Little(n / 256, bytes - 1)
  }

  function Value(s: seq<byte>): nat {
    if s == [] then 0 else s[0] + 256 * Value(s[1..])
  }

  lemma {:induction false} LittleAt(n: nat, bytes: nat, i: nat)
    requires i < bytes
    ensures Little(n, bytes)[i] == Shifted(n, i) % 256
  {
    if i > 0 {
      LittleAt(n / 256, bytes - 1, i - 1);
      ShiftedStep(n, i);
    }
  }

  /** n >> (8 * i) */
  function Shifted(n: nat, i: nat): nat {
    if i == 0 then n else Shifted(n, i - 1) / 256
  }

  lemma {:induction false} ShiftedStep(n: nat, i: nat)
    requires i > 0
    ensures Shifted(n, i) == Shifted(n / 256, i - 1)
  {
    if i > 1 { ShiftedStep(n, i - 1); }
  }

  function Power(bytes: nat): nat { if bytes == 0 then 1 else 256 * Power(bytes - 1) }

  lemma {:induction false} LittleRoundTrip(n: nat, bytes: nat)
    requires n < Power(bytes)
    ensures Value(Little(n, bytes)) == n
  {
    if bytes > 0 { LittleRoundTrip(n / 256, bytes - 1); }
  }

  lemma {:induction false} ValueIsBounded(s: seq<byte>)
    ensures Value(s) < Power(|s|)
  {
    if s != [] { ValueIsBounded(s[1..]); }
  }

  lemma WordIsEightBytes()
    ensures Power(8) == WORD
  {
    assert Power(4) == 0x1_0000_0000;
    assert Power(6) == 0x1_0000 * Power(4);
    assert Power(8) == 0x1_0000 * Power(6);
  }

  lemma FourBytes(n: nat)
    requires n < HALF
    ensures Value(Little(n, 4)) == n
  {
    assert Power(4) == HALF;
    LittleRoundTrip(n, 4);
  }

  lemma EightBytes(n: nat)
    requires n < WORD
    ensures Value(Little(n, 8)) == n
  {
    WordIsEightBytes();
    LittleRoundTrip(n, 8);
  }
}
