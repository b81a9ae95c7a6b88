/** The rewriting: every mask gives way to a token of fixed length that carries a digest of
  * what it hides, and every other byte is copied in order. */
module Redact {
  import opened Utf8
  import opened Words
  import opened RedactPatterns
  import opened RedactMasks

  const TOKEN_BYTES: nat := 21

  /** The first eight hexadecimal digits of a digest. */
  predicate IsDigits(d: seq<byte>) {
    |d| == 8 && forall k :: 0 <= k < |d| ==> Digit(d[k]) || 97 <= d[k] <= 102
  }

  /** The digest of each text; SHA-256 is not part of this model. */
  function DigestOf(digests: map<seq<byte>, seq<byte>>, secret: seq<byte>): (d: seq<byte>)
    ensures |d| == 8 && IsAscii(d)
  {
    if secret in digests && IsDigits(digests[secret]) then digests[secret] else [48, 48, 48, 48, 48, 48, 48, 48]
  }

  function Label(): (s: seq<byte>)
    ensures |s| == 9 && IsAscii(s)
  {
    Ascii("redacted:")
  }

  /** U+00AB, the label, eight digits, U+00BB. */
  function Token(digests: map<seq<byte>, seq<byte>>, secret: seq<byte>): (t: seq<byte>)
    ensures |t| == TOKEN_BYTES
  {
    [0xC2, 0xAB] + Label() + DigestOf(digests, secret) + [0xC2, 0xBB]
  }

  lemma TokenIsText(digests: map<seq<byte>, seq<byte>>, secret: seq<byte>)
    ensures Utf8.Valid(Token(digests, secret))
  {
    var d := DigestOf(digests, secret);
    AsciiIsText(Label());
    AsciiIsText(d);
    QuoteIsText(0xAB);
    QuoteIsText(0xBB);
    ConcatValid([0xC2, 0xAB], Label());
    ConcatValid([0xC2, 0xAB] + Label(), d);
    ConcatValid([0xC2, 0xAB] + Label() + d, [0xC2, 0xBB]);
  }

  lemma QuoteIsText(b: byte)
    requires Continuation(b)
    ensures Utf8.Valid([0xC2, b])
  {
    assert [0xC2, b][2..] == [];
  }

  // ---------------------------------------------------------------- the output

  /** Masks in order and within the text. */
  predicate Proper(text: seq<byte>, masks: seq<Mask>) {
    Ordered(masks) && (forall k {:trigger Real(text, masks[k])} :: 0 <= k < |masks| ==> Real(text, masks[k]))
  }

  predicate Real(text: seq<byte>, s: Mask) { s.start < s.end <= |text| }

  function EndOf(masks: seq<Mask>): nat {
    if masks == [] then 0 else masks[|masks| - 1].end
  }

  /** The output up to the end of the last mask. */
  function Rewritten(digests: map<seq<byte>, seq<byte>>, text: seq<byte>, masks: seq<Mask>): seq<byte>
    requires Proper(text, masks)
  {
    if masks == [] then []
    else
      var front, s := masks[..|masks| - 1], masks[|masks| - 1];
      FrontIsProper(text, masks);
      Rewritten(digests, text, front) + text[EndOf(front)..s.start] + Token(digests, text[s.start..s.end])
  }

  lemma FrontIsProper(text: seq<byte>, masks: seq<Mask>)
    requires Proper(text, masks) && masks != []
    ensures var front, s := masks[..|masks| - 1], masks[|masks| - 1];
            Proper(text, front) && Real(text, s) && EndOf(front) <= s.start
  {
    var n := |masks| - 1;
    assert Real(text, masks[n]);
    if n > 0 { assert Before(masks[n - 1], masks[n]); }
    assert forall k :: 0 <= k < n ==> Real(text, masks[k]);
  }

  function Output(digests: map<seq<byte>, seq<byte>>, text: seq<byte>, masks: seq<Mask>): seq<byte>
    requires Proper(text, masks)
  {
    ProperEnds(text, masks);
    Rewritten(digests, text, masks) + text[EndOf(masks)..]
  }

  lemma ProperEnds(text: seq<byte>, masks: seq<Mask>)
    requires Proper(text, masks)
    ensures EndOf(masks) <= |text|
  {
    if masks != [] { FrontIsProper(text, masks); }
  }

  function Masked(masks: seq<Mask>): int {
    if masks == [] then 0 else Masked(masks[..|masks| - 1]) + masks[|masks| - 1].end - masks[|masks| - 1].start
  }

  /** The length computed before anything is written. */
  lemma {:induction false} RewrittenLength(digests: map<seq<byte>, seq<byte>>, text: seq<byte>, masks: seq<Mask>)
    requires Proper(text, masks)
    ensures |Rewritten(digests, text, masks)| == EndOf(masks) - Masked(masks) + |masks| * TOKEN_BYTES
  {
    if masks != [] {
      FrontIsProper(text, masks);
      RewrittenLength(digests, text, masks[..|masks| - 1]);
    }
  }

  lemma {:induction false} RewrittenIsText(digests: map<seq<byte>, seq<byte>>, text: seq<byte>, masks: seq<Mask>)
    requires Utf8.Valid(text) && Proper(text, masks) && AllClean(text, masks)
    ensures Utf8.Valid(Rewritten(digests, text, masks)) && Boundary(text, EndOf(masks))
  {
    if masks == [] {
      FirstIsBoundary(text);
    } else {
      var front, s := masks[..|masks| - 1], masks[|masks| - 1];
      FrontIsProper(text, masks);
      assert CleanMask(text, s);
      assert forall k :: 0 <= k < |front| ==> CleanMask(text, masks[k]);
      RewrittenIsText(digests, text, front);
      SliceValid(text, EndOf(front), s.start);
      AppendTwo(Rewritten(digests, text, front), text[EndOf(front)..s.start], digests, text[s.start..s.end]);
    }
  }

  lemma AppendTwo(a: seq<byte>, b: seq<byte>, digests: map<seq<byte>, seq<byte>>, secret: seq<byte>)
    requires Utf8.Valid(a) && Utf8.Valid(b)
    ensures Utf8.Valid(a + b + Token(digests, secret))
  {
    TokenIsText(digests, secret);
    ConcatValid(a, b);
    ConcatValid(a + b, Token(digests, secret));
  }

  /** Valid text stays valid text. */
  lemma OutputIsText(digests: map<seq<byte>, seq<byte>>, text: seq<byte>, masks: seq<Mask>)
    requires Utf8.Valid(text) && Proper(text, masks) && AllClean(text, masks)
    ensures Utf8.Valid(Output(digests, text, masks))
  {
    RewrittenIsText(digests, text, masks);
    ProperEnds(text, masks);
    SplitValid(text, EndOf(masks));
    ConcatValid(Rewritten(digests, text, masks), text[EndOf(masks)..]);
  }

  // ---------------------------------------------------------------- nothing else is lost

  /** Put the secrets back: read, for each mask, the bytes before it from the output, skip
    * its token and insert what it hid. */
  function Restored(output: seq<byte>, text: seq<byte>, masks: seq<Mask>): seq<byte>
    requires Proper(text, masks)
  {
    if masks == [] then []
    else
      var front, s := masks[..|masks| - 1], masks[|masks| - 1];
      FrontIsProper(text, masks);
      var from := EndOf(front) - Masked(front) + |front| * TOKEN_BYTES;
      PutBack(Restored(output, text, front), output, from, text, EndOf(front), s.start, s.end)
  }

  /** Read the bytes before a mask from the output and insert what the mask hid. */
  function PutBack(restored: seq<byte>, output: seq<byte>, from: int, text: seq<byte>, i: nat, j: nat,
                   k: nat): seq<byte>
    requires i <= j <= k <= |text|
  {
    restored + (if 0 <= from && from + (j - i) <= |output| then output[from..from + (j - i)] else []) + text[j..k]
  }

  /** The output holds every byte outside the masks, in order. */
  lemma {:induction false} OutputKeepsTheRest(digests: map<seq<byte>, seq<byte>>, text: seq<byte>, masks: seq<Mask>,
                                              output: seq<byte>)
    requires Proper(text, masks) && Rewritten(digests, text, masks) <= output
    ensures EndOf(masks) <= |text| && Restored(output, text, masks) == text[..EndOf(masks)]
  {
    if masks != [] {
      var front, s := masks[..|masks| - 1], masks[|masks| - 1];
      FrontIsProper(text, masks);
      var r, gap := Rewritten(digests, text, front), text[EndOf(front)..s.start];
      var token := Token(digests, text[s.start..s.end]);
      RewrittenLength(digests, text, front);
      PutBackOne(r, gap, token, output, text, EndOf(front), s.start, s.end);
      OutputKeepsTheRest(digests, text, front, output);
    }
  }

  lemma PutBackOne(r: seq<byte>, gap: seq<byte>, token: seq<byte>, output: seq<byte>, text: seq<byte>, i: nat, j: nat,
                   k: nat)
    requires i <= j <= k <= |text| && gap == text[i..j] && r + gap + token <= output
    ensures r <= output && PutBack(text[..i], output, |r|, text, i, j, k) == text[..k]
  {
    GapIsKept(r, gap, token, output);
    ThreeParts(text, i, j, k);
  }

  /** So the text is recovered from the output, what the masks hid and nothing else. */
  lemma OutputRestoresText(digests: map<seq<byte>, seq<byte>>, text: seq<byte>, masks: seq<Mask>)
    requires Proper(text, masks)
    ensures var out, n := Output(digests, text, masks), EndOf(masks) - Masked(masks) + |masks| * TOKEN_BYTES;
            && EndOf(masks) <= |text| && 0 <= n <= |out|
            && out[n..] == text[EndOf(masks)..] && Restored(out, text, masks) + out[n..] == text
  {
    ProperEnds(text, masks);
    RewrittenLength(digests, text, masks);
    var front, back := Rewritten(digests, text, masks), text[EndOf(masks)..];
    assert (front + back)[|front|..] == back && front <= front + back;
    OutputKeepsTheRest(digests, text, masks, front + back);
    assert text[..EndOf(masks)] + back == text;
  }

  lemma ThreeParts(text: seq<byte>, i: nat, j: nat, k: nat)
    requires i <= j <= k <= |text|
    ensures text[..i] + text[i..j] + text[j..k] == text[..k]
  {
  }

  lemma GapIsKept(r: seq<byte>, gap: seq<byte>, token: seq<byte>, output: seq<byte>)
    requires r + gap + token <= output
    ensures r <= output && |r| + |gap| <= |output| && output[|r|..|r| + |gap|] == gap
  {
    var all := r + gap + token;
    assert output[..|all|] == all;
    assert output[..|r|] == all[..|r|] == r;
    assert output[|r|..|r| + |gap|] == all[|r|..|r| + |gap|] == gap;
  }

  // ---------------------------------------------------------------- what stands for a secret

  /** A quotation of the label and eight hexadecimal digits; those of the secret's digest when it has one. */
  predicate Stands(t: seq<byte>, digests: map<seq<byte>, seq<byte>>, secret: seq<byte>) {
    && |t| == 21 && t[..2] == [0xC2, 0xAB] && t[2..11] == [114, 101, 100, 97, 99, 116, 101, 100, 58]
    && IsDigits(t[11..19]) && t[19..] == [0xC2, 0xBB]
    && (secret in digests && IsDigits(digests[secret]) ==> t[11..19] == digests[secret])
  }

  lemma LabelIs(s: seq<byte>)
    requires s == Label()
    ensures s == [114, 101, 100, 97, 99, 116, 101, 100, 58]
  {
    assert s[0] == 114 && s[1] == 101 && s[2] == 100 && s[3] == 97 && s[4] == 99;
    assert s[5] == 116 && s[6] == 101 && s[7] == 100 && s[8] == 58;
  }

  lemma TokenStands(digests: map<seq<byte>, seq<byte>>, secret: seq<byte>)
    ensures Stands(Token(digests, secret), digests, secret)
  {
    var a, tag, d, b := [0xC2, 0xAB], Label(), DigestOf(digests, secret), [0xC2, 0xBB];
    LabelIs(tag);
    var t := a + tag + d + b;
    assert t[..2] == a && t[2..11] == tag && t[11..19] == d && t[19..] == b;
  }

  /** Where the k-th token stands. */
  function Place(masks: seq<Mask>, k: nat): int
    requires k < |masks|
  {
    masks[k].start - Masked(masks[..k]) + 21 * k
  }

  lemma {:induction false} TokenInPlace(digests: map<seq<byte>, seq<byte>>, text: seq<byte>, masks: seq<Mask>,
                                        output: seq<byte>, k: nat)
    requires Proper(text, masks) && Rewritten(digests, text, masks) <= output && k < |masks|
    ensures var at := Place(masks, k);
            && Real(text, masks[k]) && 0 <= at && at + 21 <= |output|
            && output[at..at + 21] == Token(digests, text[masks[k].start..masks[k].end])
    decreases |masks|
  {
    var n := |masks| - 1;
    var front, s := masks[..n], masks[n];
    FrontIsProper(text, masks);
    var r, gap := Rewritten(digests, text, front), text[EndOf(front)..s.start];
    var token := Token(digests, text[s.start..s.end]);
    RewrittenLength(digests, text, front);
    if k == n {
      LastPart(r, gap, token, output);
    } else {
      FirstPart(r, gap, token, output);
      TokenInPlace(digests, text, front, output, k);
      assert front[..k] == masks[..k];
    }
  }

  lemma FirstPart(r: seq<byte>, gap: seq<byte>, token: seq<byte>, output: seq<byte>)
    requires r + gap + token <= output
    ensures r <= output
  {
    GapIsKept(r, gap, token, output);
  }

  lemma LastPart(r: seq<byte>, gap: seq<byte>, token: seq<byte>, output: seq<byte>)
    requires r + gap + token <= output
    ensures |r| + |gap| + |token| <= |output| && output[|r| + |gap|..|r| + |gap| + |token|] == token
  {
    var all := r + gap + token;
    assert output[..|all|] == all;
    assert output[|r| + |gap|..|all|] == all[|r| + |gap|..] == token;
  }

  /** In place of each mask the output has a token for what it hides: equal secrets keep equal tokens. */
  lemma OutputHoldsTokens(digests: map<seq<byte>, seq<byte>>, text: seq<byte>, masks: seq<Mask>, k: nat)
    requires Proper(text, masks) && k < |masks|
    ensures var at, out := Place(masks, k), Output(digests, text, masks);
            && Real(text, masks[k]) && 0 <= at && at + 21 <= |out|
            && Stands(out[at..at + 21], digests, text[masks[k].start..masks[k].end])
  {
    ProperEnds(text, masks);
    assert Rewritten(digests, text, masks) <= Output(digests, text, masks);
    TokenInPlace(digests, text, masks, Output(digests, text, masks), k);
    TokenStands(digests, text[masks[k].start..masks[k].end]);
  }

  // ---------------------------------------------------------------- nothing of the secrets is left

  ghost predicate InMask(masks: seq<Mask>, p: int) {
    exists k :: 0 <= k < |masks| && masks[k].start <= p < masks[k].end
  }

  /** The texts differ in masked bytes only, and what is masked has the same digests. */
  ghost predicate SameButSecrets(digests: map<seq<byte>, seq<byte>>, text: seq<byte>, other: seq<byte>,
                                 masks: seq<Mask>)
    requires Proper(text, masks)
  {
    && |other| == |text|
    && (forall p {:trigger text[p]} :: 0 <= p < |text| && !InMask(masks, p) ==> text[p] == other[p])
    && (forall k {:trigger SameDigest(digests, text, other, masks[k])} ::
          0 <= k < |masks| ==> SameDigest(digests, text, other, masks[k]))
  }

  predicate SameDigest(digests: map<seq<byte>, seq<byte>>, text: seq<byte>, other: seq<byte>, s: Mask) {
    && s.start < s.end <= |text| == |other|
    && DigestOf(digests, text[s.start..s.end]) == DigestOf(digests, other[s.start..s.end])
  }

  lemma GapIsSame(digests: map<seq<byte>, seq<byte>>, text: seq<byte>, other: seq<byte>, masks: seq<Mask>, n: nat,
                  b: nat)
    requires Proper(text, masks) && SameButSecrets(digests, text, other, masks) && n <= |masks|
    requires EndOf(masks[..n]) <= b <= (if n < |masks| then masks[n].start else |text|) <= |text|
    ensures text[EndOf(masks[..n])..b] == other[EndOf(masks[..n])..b]
  {
    var a := EndOf(masks[..n]);
    forall p | a <= p < b ensures text[p] == other[p] {
      forall k | 0 <= k < |masks| ensures !(masks[k].start <= p < masks[k].end) {
        if k < n - 1 { assert Before(masks[k], masks[n - 1]); }
        if n < k { assert Before(masks[n], masks[k]); }
      }
    }
  }

  lemma {:induction false} RewrittenHides(digests: map<seq<byte>, seq<byte>>, text: seq<byte>, other: seq<byte>,
                                          masks: seq<Mask>, n: nat)
    requires Proper(text, masks) && SameButSecrets(digests, text, other, masks) && n <= |masks|
    ensures Proper(text, masks[..n]) && Proper(other, masks[..n])
    ensures Rewritten(digests, text, masks[..n]) == Rewritten(digests, other, masks[..n])
  {
    PrefixIsProper(text, masks, n);
    PrefixIsProper(other, masks, n);
    if n > 0 {
      RewrittenHides(digests, text, other, masks, n - 1);
      var s := masks[n - 1];
      assert masks[..n][..n - 1] == masks[..n - 1] && SameDigest(digests, text, other, s);
      FrontIsProper(text, masks[..n]);
      GapIsSame(digests, text, other, masks, n - 1, s.start);
    }
  }

  lemma PrefixIsProper(text: seq<byte>, masks: seq<Mask>, n: nat)
    requires Ordered(masks) && n <= |masks| && forall k :: 0 <= k < |masks| ==> Real(text, masks[k])
    ensures Proper(text, masks[..n])
  {
    forall j, k | 0 <= j < k < n ensures Before(masks[..n][j], masks[..n][k]) {
      assert Before(masks[j], masks[k]);
    }
  }

  /** The output depends on the masked bytes through their digests only. */
  lemma OutputHidesSecrets(digests: map<seq<byte>, seq<byte>>, text: seq<byte>, other: seq<byte>, masks: seq<Mask>)
    requires Proper(text, masks) && SameButSecrets(digests, text, other, masks)
    ensures Proper(other, masks) && Output(digests, text, masks) == Output(digests, other, masks)
  {
    var n := |masks|;
    assert masks[..n] == masks;
    RewrittenHides(digests, text, other, masks, n);
    ProperEnds(text, masks);
    ProperEnds(other, masks);
    GapIsSame(digests, text, other, masks, n, |text|);
    assert text[EndOf(masks)..|text|] == text[EndOf(masks)..] && other[EndOf(masks)..|text|] == other[EndOf(masks)..];
  }
}
