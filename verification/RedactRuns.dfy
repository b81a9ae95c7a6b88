/** Which runs of characters are masked for their looks alone, told without the gaps they are found in. */
module RedactRuns {
  import opened Statuses
  import opened Utf8
  import opened RedactPatterns
  import opened RedactMasks

  predicate Numeral(b: byte) { 48 <= b <= 57 }

  predicate Letter(b: byte) { 65 <= b <= 90 || 97 <= b <= 122 }

  /** Letters, digits, and the signs of base64. */
  predicate Keyish(b: byte) { Letter(b) || Numeral(b) || b in {43, 45, 47, 61, 95} }

  predicate Free(text: seq<byte>, regions: seq<Region>, k: int) {
    0 <= k < |text| && Keyish(text[k]) && !Consumed(regions, k)
  }

  /** A digit, a letter, and an entropy that clears the bar: the lower one when all are hexadecimal. */
  ghost predicate LooksRandom(bars: Bars, run: seq<byte>) {
    && (exists k :: 0 <= k < |run| && Numeral(run[k]))
    && (exists k :: 0 <= k < |run| && Letter(run[k]))
    && (if forall k :: 0 <= k < |run| ==> Numeral(run[k]) || 65 <= run[k] <= 70 || 97 <= run[k] <= 102
        then run in bars.hex else run in bars.any)
  }

  /** At least 32 characters of keys and digests that no pattern took, as many as there are in a row. */
  ghost predicate IsRun(bars: Bars, text: seq<byte>, regions: seq<Region>, s: Mask) {
    && s.start + 32 <= s.end <= |text|
    && (forall k {:trigger Free(text, regions, k)} :: s.start <= k < s.end ==> Free(text, regions, k))
    && !Free(text, regions, s.start - 1) && !Free(text, regions, s.end)
    && LooksRandom(bars, text[s.start..s.end])
  }

  lemma LooksAre(bars: Bars, run: seq<byte>)
    ensures IsSecret(bars, run) <==> LooksRandom(bars, run)
  {
    assert forall k :: 0 <= k < |run| ==> (Digit(run[k]) <==> Numeral(run[k]));
    assert forall k :: 0 <= k < |run| ==> ((Upper(run[k]) || Lower(run[k])) <==> Letter(run[k]));
    assert forall k :: 0 <= k < |run| ==>
                         (Hexadecimal(run[k]) <==> Numeral(run[k]) || 65 <= run[k] <= 70 || 97 <= run[k] <= 102);
  }

  /** The gap in which a position lies that no pattern took. */
  lemma {:induction false} GapOf(regions: seq<Region>, length: nat, p: nat, h: nat) returns (g: nat)
    requires Laid(regions, length) && p < length && !Consumed(regions, p) && h <= |regions|
    requires p < GapEnd(regions, h, length)
    ensures g <= h && GapStart(regions, g) <= p < GapEnd(regions, g, length)
  {
    g := h;
    if h > 0 && p < End(regions[h - 1]) {
      assert !Takes(regions[h - 1], p);
      g := GapOf(regions, length, p, h - 1);
    }
  }

  /** What lies in a gap no pattern took, and what lies just outside it is taken or the end of the text. */
  lemma GapIsFree(regions: seq<Region>, length: nat, g: nat, p: nat)
    requires Laid(regions, length) && g <= |regions| && GapStart(regions, g) <= p < GapEnd(regions, g, length)
    ensures p < length && !Consumed(regions, p)
  {
    GapIsInside(regions, length, g);
    forall k | 0 <= k < |regions| ensures !Takes(regions[k], p) {
      if k < g - 1 { assert Follows(regions[k], regions[g - 1]) && Fits(regions[g - 1], length); }
      if k > g { assert Follows(regions[g], regions[k]) && Fits(regions[g], length); }
    }
  }

  lemma GapIsBounded(regions: seq<Region>, length: nat, g: nat)
    requires Laid(regions, length) && g <= |regions|
    ensures GapStart(regions, g) > 0 ==> Consumed(regions, GapStart(regions, g) - 1)
    ensures GapEnd(regions, g, length) < length ==> Consumed(regions, GapEnd(regions, g, length))
  {
    if g > 0 { assert Fits(regions[g - 1], length) && Takes(regions[g - 1], End(regions[g - 1]) - 1); }
    if g < |regions| { assert Fits(regions[g], length) && Takes(regions[g], regions[g].start); }
  }

  lemma RunLiesInGap(bars: Bars, text: seq<byte>, regions: seq<Region>, s: Mask) returns (g: nat)
    requires Laid(regions, |text|) && IsRun(bars, text, regions, s)
    ensures g <= |regions| && GapStart(regions, g) <= s.start && s.end <= GapEnd(regions, g, |text|)
  {
    assert Free(text, regions, s.start);
    g := GapOf(regions, |text|, s.start, |regions|);
    GapIsBounded(regions, |text|, g);
    var end := GapEnd(regions, g, |text|);
    assert end < s.end ==> Free(text, regions, end);
  }

  lemma RunQualifies(bars: Bars, text: seq<byte>, regions: seq<Region>, s: Mask, g: nat)
    requires Laid(regions, |text|) && IsRun(bars, text, regions, s)
    requires g <= |regions| && GapStart(regions, g) <= s.start && s.end <= GapEnd(regions, g, |text|)
    ensures InGap(bars, text, regions, g, s)
  {
    GapIsInside(regions, |text|, g);
    forall k | s.start <= k < s.end ensures In(Entropy, text[k]) { assert Free(text, regions, k); }
    if s.start > GapStart(regions, g) { GapIsFree(regions, |text|, g, s.start - 1); }
    if s.end < GapEnd(regions, g, |text|) { GapIsFree(regions, |text|, g, s.end); }
    LooksAre(bars, text[s.start..s.end]);
  }

  lemma QualifiesIsRun(bars: Bars, text: seq<byte>, regions: seq<Region>, s: Mask, g: nat)
    requires Laid(regions, |text|) && InGap(bars, text, regions, g, s)
    ensures IsRun(bars, text, regions, s)
  {
    forall k | s.start <= k < s.end ensures Free(text, regions, k) { GapIsFree(regions, |text|, g, k); }
    GapIsBounded(regions, |text|, g);
    LooksAre(bars, text[s.start..s.end]);
  }

  /** The runs found in all gaps are exactly those. */
  lemma RunsAre(bars: Bars, text: seq<byte>, regions: seq<Region>, runs: seq<Mask>, s: Mask)
    requires Laid(regions, |text|) && RunsOf(bars, text, regions, |regions| + 1, runs)
    ensures s in runs <==> IsRun(bars, text, regions, s)
  {
    if IsRun(bars, text, regions, s) {
      var g := RunLiesInGap(bars, text, regions, s);
      RunQualifies(bars, text, regions, s, g);
    }
    if s in runs {
      var k :| 0 <= k < |runs| && runs[k] == s;
      assert InSomeGap(bars, text, regions, |regions| + 1, runs[k]);
      var g: nat :| g < |regions| + 1 && InGap(bars, text, regions, g, s);
      QualifiesIsRun(bars, text, regions, s, g);
    }
  }

  /** What is masked is the masks of the matches and those runs, and nothing else. */
  ghost predicate MasksAre(bars: Bars, text: seq<byte>, regions: seq<Region>, masks: seq<Mask>) {
    forall s {:trigger s in masks} {:trigger IsRun(bars, text, regions, s)} ::
      s in masks <==> IsRun(bars, text, regions, s) || exists k :: 0 <= k < |regions| && MaskOf(regions[k]) == s
  }

  lemma AllMasksAre(bars: Bars, text: seq<byte>, regions: seq<Region>, runs: seq<Mask>, masks: seq<Mask>)
    requires Laid(regions, |text|) && RunsOf(bars, text, regions, |regions| + 1, runs)
    requires multiset(masks) == multiset(Masks(regions) + runs)
    ensures MasksAre(bars, text, regions, masks)
  {
    forall s ensures s in masks <==> IsRun(bars, text, regions, s)
                                     || exists k :: 0 <= k < |regions| && MaskOf(regions[k]) == s
    {
      RunsAre(bars, text, regions, runs, s);
      assert s in masks <==> s in multiset(masks);
      assert s in Masks(regions) + runs <==> s in multiset(Masks(regions) + runs);
      assert s in Masks(regions) <==> exists k :: 0 <= k < |regions| && MaskOf(regions[k]) == s by {
        if k :| 0 <= k < |regions| && MaskOf(regions[k]) == s { assert Masks(regions)[k] == s; }
      }
    }
  }
}
