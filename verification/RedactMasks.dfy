/** What the scanner masks: the structural matches found left to right, then the
  * high-entropy runs of the gaps between them. */
module RedactMasks {
  import opened Statuses
  import opened Utf8
  import opened RedactPatterns

  const RUN_MIN: nat := 32

  datatype Mask = Mask(start: nat, end: nat)

  datatype Region = Region(start: nat, m: Match)

  function End(r: Region): nat { r.start + r.m.total }

  function MaskOf(r: Region): Mask { Mask(r.start + r.m.offset, r.start + r.m.offset + r.m.length) }

  // ---------------------------------------------------------------- structural regions

  predicate Consumed(regions: seq<Region>, p: nat) {
    exists k :: 0 <= k < |regions| && Takes(regions[k], p)
  }

  predicate Takes(r: Region, p: nat) { r.start <= p < End(r) }

  /** Before upTo: each region is the match at its start, regions follow one another, and
    * nothing matches at a position outside them. */
  ghost predicate Scanned(ps: seq<Pattern>, text: seq<byte>, regions: seq<Region>, upTo: nat) {
    && upTo <= |text|
    && (forall k :: 0 <= k < |regions| ==> IsMatched(ps, text, regions[k], upTo))
    && (forall j, k {:trigger Follows(regions[j], regions[k])} ::
          0 <= j < k < |regions| ==> Follows(regions[j], regions[k]))
    && (forall p :: 0 <= p < upTo && !Consumed(regions, p) ==> Structural(ps, text, p).None?)
  }

  ghost predicate IsMatched(ps: seq<Pattern>, text: seq<byte>, r: Region, upTo: nat) {
    && r.start < |text| && Structural(ps, text, r.start) == Some(r.m)
    && RedactPatterns.Inside(text, r.start, r.m) && End(r) <= upTo
  }

  predicate Follows(r: Region, s: Region) { End(r) <= s.start }

  lemma ScannedSkip(ps: seq<Pattern>, text: seq<byte>, regions: seq<Region>, i: nat)
    requires Scanned(ps, text, regions, i) && i < |text| && Structural(ps, text, i).None?
    ensures Scanned(ps, text, regions, i + 1)
  {
    var next := i + 1;
    forall k | 0 <= k < |regions| ensures IsMatched(ps, text, regions[k], next) {
      assert IsMatched(ps, text, regions[k], i);
    }
  }

  lemma ScannedTake(ps: seq<Pattern>, text: seq<byte>, regions: seq<Region>, i: nat, m: Match)
    requires Scanned(ps, text, regions, i) && i < |text| && Structural(ps, text, i) == Some(m)
    requires RedactPatterns.Inside(text, i, m)
    ensures Scanned(ps, text, regions + [Region(i, m)], i + m.total)
  {
    var all, next := regions + [Region(i, m)], i + m.total;
    forall k | 0 <= k < |all| ensures IsMatched(ps, text, all[k], next) {
      if k < |regions| { assert IsMatched(ps, text, regions[k], i); }
    }
    forall p | 0 <= p < next && !Consumed(all, p) ensures Structural(ps, text, p).None? {
      assert !Takes(all[|regions|], p);
      assert p < i;
      assert forall k :: 0 <= k < |regions| ==> all[k] == regions[k];
    }
    forall j, k | 0 <= j < k < |all| ensures Follows(all[j], all[k]) {
      if k < |regions| { assert Follows(regions[j], regions[k]); }
      else { assert IsMatched(ps, text, regions[j], i); }
    }
  }

  // ---------------------------------------------------------------- high-entropy runs

  predicate HasDigit(run: seq<byte>) { exists k :: 0 <= k < |run| && Digit(run[k]) }

  predicate HasLetter(run: seq<byte>) { exists k :: 0 <= k < |run| && (Upper(run[k]) || Lower(run[k])) }

  predicate Hexadecimal(b: byte) { Digit(b) || 65 <= b <= 70 || 97 <= b <= 102 }

  predicate AllHex(run: seq<byte>) { forall k :: 0 <= k < |run| ==> Hexadecimal(run[k]) }

  /** The entropy bar, as the runs that clear it: the lower one for hexadecimal runs. */
  datatype Bars = Bars(hex: set<seq<byte>>, any: set<seq<byte>>)

  predicate IsSecret(bars: Bars, run: seq<byte>) {
    HasDigit(run) && HasLetter(run) && run in (if AllHex(run) then bars.hex else bars.any)
  }

  /** A run within [a, b) that cannot be extended there, long enough and random enough. */
  predicate Qualifies(bars: Bars, text: seq<byte>, a: nat, b: nat, s: Mask) {
    && a <= s.start < s.end <= b <= |text|
    && (forall k :: s.start <= k < s.end ==> In(Entropy, text[k]))
    && (s.start > a ==> !In(Entropy, text[s.start - 1]))
    && (s.end < b ==> !In(Entropy, text[s.end]))
    && s.end - s.start >= RUN_MIN && IsSecret(bars, text[s.start..s.end])
  }

  /** The g-th stretch that no structural match consumed. */
  function GapStart(regions: seq<Region>, g: nat): nat
    requires g <= |regions|
  {
    if g == 0 then 0 else End(regions[g - 1])
  }

  function GapEnd(regions: seq<Region>, g: nat, length: nat): nat
    requires g <= |regions|
  {
    if g < |regions| then regions[g].start else length
  }

  predicate InGap(bars: Bars, text: seq<byte>, regions: seq<Region>, g: nat, s: Mask) {
    g <= |regions| && Qualifies(bars, text, GapStart(regions, g), GapEnd(regions, g, |text|), s)
  }

  ghost predicate InSomeGap(bars: Bars, text: seq<byte>, regions: seq<Region>, n: nat, s: Mask) {
    exists g: nat :: g < n && InGap(bars, text, regions, g, s)
  }

  /** The runs found are those that qualify in the first n gaps. */
  ghost predicate RunsOf(bars: Bars, text: seq<byte>, regions: seq<Region>, n: nat, runs: seq<Mask>) {
    && n <= |regions| + 1
    && (forall k {:trigger InSomeGap(bars, text, regions, n, runs[k])} ::
          0 <= k < |runs| ==> InSomeGap(bars, text, regions, n, runs[k]))
    && (forall g, s :: 0 <= g < n && InGap(bars, text, regions, g, s) ==> s in runs)
    && Ordered(runs)
  }

  predicate Before(s: Mask, t: Mask) { s.start < s.end <= t.start < t.end }

  predicate Ordered(masks: seq<Mask>) {
    forall j, k {:trigger Before(masks[j], masks[k])} :: 0 <= j < k < |masks| ==> Before(masks[j], masks[k])
  }

  predicate Apart(s: Mask, t: Mask) { Before(s, t) || Before(t, s) }

  predicate AllApart(masks: seq<Mask>) {
    forall j, k {:trigger Apart(masks[j], masks[k])} :: 0 <= j < k < |masks| ==> Apart(masks[j], masks[k])
  }

  /** Where regions and their masks lie. */
  ghost predicate Laid(regions: seq<Region>, length: nat) {
    && (forall k {:trigger Fits(regions[k], length)} :: 0 <= k < |regions| ==> Fits(regions[k], length))
    && (forall j, k {:trigger Follows(regions[j], regions[k])} ::
          0 <= j < k < |regions| ==> Follows(regions[j], regions[k]))
  }

  predicate Fits(r: Region, length: nat) {
    var m := MaskOf(r);
    r.start <= m.start < m.end <= End(r) <= length
  }

  lemma ScannedIsLaid(ps: seq<Pattern>, text: seq<byte>, regions: seq<Region>)
    requires Scanned(ps, text, regions, |text|)
    ensures Laid(regions, |text|)
  {
    forall k | 0 <= k < |regions| ensures Fits(regions[k], |text|) {
      assert IsMatched(ps, text, regions[k], |text|);
    }
  }

  predicate Sits(regions: seq<Region>, length: nat, g: nat, s: Mask) {
    g <= |regions| && GapStart(regions, g) <= s.start < s.end <= GapEnd(regions, g, length)
  }

  lemma GapIsInside(regions: seq<Region>, length: nat, g: nat)
    requires Laid(regions, length) && g <= |regions|
    ensures GapStart(regions, g) <= GapEnd(regions, g, length) <= length
  {
    if g < |regions| { assert Fits(regions[g], length); }
    if g > 0 {
      assert Fits(regions[g - 1], length);
      if g < |regions| { assert Follows(regions[g - 1], regions[g]); }
    }
  }

  lemma GapsAscend(regions: seq<Region>, length: nat, g: nat, h: nat)
    requires Laid(regions, length) && g < h <= |regions|
    ensures GapEnd(regions, g, length) <= GapStart(regions, h)
  {
    assert Fits(regions[g], length);
    if g < h - 1 { assert Follows(regions[g], regions[h - 1]) && Fits(regions[h - 1], length); }
  }

  /** A run in a gap is apart from the mask of every region. */
  lemma RunsAvoidRegions(regions: seq<Region>, length: nat, g: nat, s: Mask, k: nat)
    requires Laid(regions, length) && Sits(regions, length, g, s) && k < |regions|
    ensures Apart(MaskOf(regions[k]), s)
  {
    assert Fits(regions[k], length);
    if k > g { assert Follows(regions[g], regions[k]) && Fits(regions[g], length); }
    if k < g - 1 { assert Follows(regions[k], regions[g - 1]) && Fits(regions[g - 1], length); }
  }

  lemma RegionsAreApart(regions: seq<Region>, length: nat, j: nat, k: nat)
    requires Laid(regions, length) && j < k < |regions|
    ensures Before(MaskOf(regions[j]), MaskOf(regions[k]))
  {
    assert Fits(regions[j], length) && Fits(regions[k], length) && Follows(regions[j], regions[k]);
  }

  function Masks(regions: seq<Region>): (masks: seq<Mask>)
    ensures |masks| == |regions| && forall k :: 0 <= k < |regions| ==> masks[k] == MaskOf(regions[k])
  {
    seq(|regions|, k requires 0 <= k < |regions| => MaskOf(regions[k]))
  }

  ghost predicate AllSit(regions: seq<Region>, length: nat, runs: seq<Mask>) {
    forall k {:trigger SitsSomewhere(regions, length, runs[k])} ::
      0 <= k < |runs| ==> SitsSomewhere(regions, length, runs[k])
  }

  ghost predicate SitsSomewhere(regions: seq<Region>, length: nat, s: Mask) {
    exists g: nat :: Sits(regions, length, g, s)
  }

  lemma RunsSit(bars: Bars, text: seq<byte>, regions: seq<Region>, runs: seq<Mask>)
    requires RunsOf(bars, text, regions, |regions| + 1, runs)
    ensures AllSit(regions, |text|, runs)
  {
    forall k | 0 <= k < |runs| ensures SitsSomewhere(regions, |text|, runs[k]) {
      assert InSomeGap(bars, text, regions, |regions| + 1, runs[k]);
      var g: nat :| g < |regions| + 1 && InGap(bars, text, regions, g, runs[k]);
      assert Sits(regions, |text|, g, runs[k]);
    }
  }

  /** All masks, structural and entropic, are pairwise apart. */
  lemma MasksAreApart(regions: seq<Region>, length: nat, runs: seq<Mask>)
    requires Laid(regions, length) && AllSit(regions, length, runs) && Ordered(runs)
    ensures AllApart(Masks(regions) + runs)
  {
    var n, all := |regions|, Masks(regions) + runs;
    forall j, k | 0 <= j < k < |all| ensures Apart(all[j], all[k]) {
      if k < n {
        RegionsAreApart(regions, length, j, k);
      } else if j < n {
        assert SitsSomewhere(regions, length, runs[k - n]);
        var g: nat :| Sits(regions, length, g, runs[k - n]);
        RunsAvoidRegions(regions, length, g, runs[k - n], j);
      } else {
        assert Before(runs[j - n], runs[k - n]);
      }
    }
  }

  // ---------------------------------------------------------------- masks of valid text

  ghost predicate CleanMask(text: seq<byte>, s: Mask) {
    s.start < s.end <= |text| && Boundary(text, s.start) && Boundary(text, s.end)
  }

  ghost predicate AllClean(text: seq<byte>, masks: seq<Mask>) {
    forall k {:trigger CleanMask(text, masks[k])} :: 0 <= k < |masks| ==> CleanMask(text, masks[k])
  }

  lemma RunIsClean(bars: Bars, text: seq<byte>, a: nat, b: nat, s: Mask)
    requires AsciiEnds(text) && Qualifies(bars, text, a, b, s)
    ensures CleanMask(text, s)
  {
    ClassesAreAscii(Entropy, text[s.start]);
    ClassesAreAscii(Entropy, text[s.end - 1]);
  }

  lemma RegionIsClean(ps: seq<Pattern>, text: seq<byte>, r: Region)
    requires AsciiEnds(text) && AllUsable(ps) && IsMatched(ps, text, r, |text|)
    ensures CleanMask(text, MaskOf(r))
  {
    BestIsClean(ps, text, r.start, |ps|);
  }

  lemma FoundIsClean(bars: Bars, text: seq<byte>, regions: seq<Region>, s: Mask)
    requires AsciiEnds(text) && InSomeGap(bars, text, regions, |regions| + 1, s)
    ensures CleanMask(text, s)
  {
    var g: nat :| g < |regions| + 1 && InGap(bars, text, regions, g, s);
    RunIsClean(bars, text, GapStart(regions, g), GapEnd(regions, g, |text|), s);
  }

  lemma RegionsAreClean(ps: seq<Pattern>, text: seq<byte>, regions: seq<Region>, k: nat)
    requires AsciiEnds(text) && AllUsable(ps) && Scanned(ps, text, regions, |text|) && k < |regions|
    ensures CleanMask(text, MaskOf(regions[k]))
  {
    assert IsMatched(ps, text, regions[k], |text|);
    RegionIsClean(ps, text, regions[k]);
  }

  lemma RunsAreClean(bars: Bars, text: seq<byte>, regions: seq<Region>, runs: seq<Mask>, k: nat)
    requires AsciiEnds(text) && RunsOf(bars, text, regions, |regions| + 1, runs) && k < |runs|
    ensures CleanMask(text, runs[k])
  {
    assert InSomeGap(bars, text, regions, |regions| + 1, runs[k]);
    FoundIsClean(bars, text, regions, runs[k]);
  }

  lemma BothAreClean(text: seq<byte>, masks: seq<Mask>, runs: seq<Mask>)
    requires AllClean(text, masks) && AllClean(text, runs)
    ensures AllClean(text, masks + runs)
  {
    var all := masks + runs;
    forall k | 0 <= k < |all| ensures CleanMask(text, all[k]) {
      if k < |masks| { assert CleanMask(text, masks[k]); } else { assert CleanMask(text, runs[k - |masks|]); }
    }
  }

  /** Every mask of a valid text hides whole characters. */
  lemma MasksAreClean(ps: seq<Pattern>, bars: Bars, text: seq<byte>, regions: seq<Region>, runs: seq<Mask>)
    requires AsciiEnds(text) && AllUsable(ps)
    requires Scanned(ps, text, regions, |text|) && RunsOf(bars, text, regions, |regions| + 1, runs)
    ensures AllClean(text, Masks(regions) + runs)
  {
    forall k | 0 <= k < |regions| ensures CleanMask(text, MaskOf(regions[k])) {
      RegionsAreClean(ps, text, regions, k);
    }
    forall k | 0 <= k < |runs| ensures CleanMask(text, runs[k]) {
      RunsAreClean(bars, text, regions, runs, k);
    }
    BothAreClean(text, Masks(regions), runs);
  }
}
