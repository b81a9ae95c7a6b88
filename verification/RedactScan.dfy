/** The scanner's loops. */
module RedactScan {
  import opened Statuses
  import opened Utf8
  import opened Words
  import opened RedactPatterns
  import opened RedactMasks

  // ---------------------------------------------------------------- matchers

  method Skip(text: seq<byte>, i: nat, c: Class) returns (r: nat)
    requires i <= |text|
    ensures r == RunEnd(text, i, c)
  {
    r := i;
    while r < |text| && In(c, text[r])
      invariant i <= r <= |text| && RunEnd(text, r, c) == RunEnd(text, i, c)
    {
      r := r + 1;
    }
  }

  method Has(text: seq<byte>, i: nat, word: seq<byte>) returns (b: bool)
    ensures b == StartsFolded(text, i, word)
  {
    if i + |word| > |text| { return false; }
    for k := 0 to |word|
      invariant forall j :: 0 <= j < k ==> Folded(text[i + j]) == word[j]
    {
      if Folded(text[i + k]) != word[k] { return false; }
    }
    return true;
  }

  method SeekWord(text: seq<byte>, i: nat, words: seq<seq<byte>>) returns (k: nat)
    ensures k == FirstWord(text, i, words, 0)
  {
    k := 0;
    while k < |words| && !Starts(text, i, words[k])
      invariant k <= |words| && FirstWord(text, i, words, k) == FirstWord(text, i, words, 0)
    {
      k := k + 1;
    }
  }

  method SeekFolded(text: seq<byte>, i: nat, words: seq<seq<byte>>) returns (k: nat)
    ensures k == FirstFolded(text, i, words, 0)
  {
    k := 0;
    while k < |words|
      invariant k <= |words| && FirstFolded(text, i, words, k) == FirstFolded(text, i, words, 0)
    {
      var here := Has(text, i, words[k]);
      if here { break; }
      k := k + 1;
    }
  }

  method SeekName(text: seq<byte>, i: nat, names: seq<seq<byte>>, tail: seq<byte>) returns (k: nat)
    ensures k == FirstName(text, i, names, tail, 0)
  {
    k := 0;
    while k < |names| && !Starts(text, i, names[k] + tail)
      invariant k <= |names| && FirstName(text, i, names, tail, k) == FirstName(text, i, names, tail, 0)
    {
      k := k + 1;
    }
  }

  method Locate(text: seq<byte>, from: nat, needle: seq<byte>) returns (r: Option<nat>)
    ensures r == Find(text, from, needle)
  {
    var i := from;
    while i + |needle| <= |text|
      invariant Find(text, i, needle) == Find(text, from, needle)
      decreases |text| - i
    {
      if Starts(text, i, needle) { return Some(i); }
      if i == |text| { return None; }
      i := i + 1;
    }
    return None;
  }

  method MatchOneKey(text: seq<byte>, i: nat, key: seq<byte>, minimum: nat) returns (m: Option<Match>)
    ensures m == MatchKey(text, i, key, minimum)
  {
    var here := Has(text, i, key);
    if !here { return None; }
    var j := Skip(text, i + |key|, Blank);
    if j == |text| || (text[j] != 61 && text[j] != 58) { return None; }
    j := Skip(text, j + 1, Blank);
    if j < |text| && (text[j] == 34 || text[j] == 39) { j := j + 1; }
    var end := Skip(text, j, ValueChar);
    return if end - j < minimum then None else Some(Match(end - i, j - i, end - j));
  }

  method MatchAllKeys(text: seq<byte>, i: nat, keys: seq<seq<byte>>, minimum: nat) returns (best: Option<Match>)
    ensures best == MatchKeys(text, i, keys, minimum, |keys|)
  {
    best := None;
    for k := 0 to |keys|
      invariant best == MatchKeys(text, i, keys, minimum, k)
    {
      var m := MatchOneKey(text, i, keys[k], minimum);
      if m.Some? && (best.None? || m.value.total > best.value.total) { best := m; }
    }
  }

  method MatchBearer(text: seq<byte>, i: nat, name: seq<byte>, schemes: seq<seq<byte>>, minimum: nat)
    returns (m: Option<Match>)
    ensures m == MatchHeader(text, i, name, schemes, minimum)
  {
    var here := Has(text, i, name);
    if !here { return None; }
    var j := Skip(text, i + |name|, Blank);
    var k := SeekFolded(text, j, schemes);
    if k == |schemes| { return None; }
    var blank := j + |schemes[k]|;
    var token := Skip(text, blank, Blank);
    if token == blank { return None; }
    var end := Skip(text, token, AuthChar);
    return if end - token < minimum then None else Some(Match(end - i, token - i, end - token));
  }

  method MatchPem(text: seq<byte>, i: nat, begin: seq<byte>, names: seq<seq<byte>>, tail: seq<byte>, end: seq<byte>)
    returns (m: Option<Match>)
    ensures m == MatchBlock(text, i, begin, names, tail, end)
  {
    if !Starts(text, i, begin) { return None; }
    var k := SeekName(text, i + |begin|, names, tail);
    if k == |names| { return None; }
    var block := MatchTo(text, i, i + |begin| + |names[k]| + |tail|, end + names[k] + tail);
    return Some(block);
  }

  method MatchTo(text: seq<byte>, i: nat, from: nat, needle: seq<byte>) returns (m: Match)
    requires i <= from <= |text|
    ensures m == BlockTo(text, i, from, needle)
  {
    var found := Locate(text, from, needle);
    var total := if found.Some? then found.value + |needle| - i else |text| - i;
    return Match(total, 0, total);
  }

  method MatchPattern(p: Pattern, text: seq<byte>, i: nat) returns (m: Option<Match>)
    requires i <= |text|
    ensures m == MatchAt(p, text, i)
  {
    match p
    case Exact(prefix, count, c) =>
      if !Starts(text, i, prefix) { return None; }
      var end := Skip(text, i + |prefix|, c);
      return if end == i + |prefix| + count then Some(Match(|prefix| + count, 0, |prefix| + count)) else None;
    case AtLeast(prefixes, minimum, c) =>
      var k := SeekWord(text, i, prefixes);
      if k == |prefixes| { return None; }
      var end := Skip(text, i + |prefixes[k]|, c);
      return if end - i - |prefixes[k]| < minimum then None else Some(Match(end - i, 0, end - i));
    case Block(begin, names, tail, end) =>
      m := MatchPem(text, i, begin, names, tail, end);
    case Header(name, schemes, minimum) =>
      m := MatchBearer(text, i, name, schemes, minimum);
    case Pair(keys, minimum) =>
      if i > 0 && AlphaNumeric(text[i - 1]) { return None; }
      m := MatchAllKeys(text, i, keys, minimum);
  }

  /** Longest structural match at position i; ties go to the earlier pattern. */
  method MatchStructural(ps: seq<Pattern>, text: seq<byte>, i: nat) returns (best: Option<Match>)
    requires i <= |text|
    ensures best == Structural(ps, text, i)
  {
    best := None;
    for k := 0 to |ps|
      invariant best == Best(ps, text, i, k)
    {
      var m := MatchPattern(ps[k], text, i);
      if m.Some? && (best.None? || m.value.total > best.value.total) { best := m; }
    }
  }

  // ---------------------------------------------------------------- phases

  /** Left to right; a matched region is consumed and never scanned again. */
  method ScanStructural(ps: seq<Pattern>, text: seq<byte>) returns (consumed: seq<Region>, masks: seq<Mask>)
    requires AllUsable(ps)
    ensures Scanned(ps, text, consumed, |text|) && masks == Masks(consumed)
  {
    consumed, masks := [], [];
    var i := 0;
    while i < |text|
      invariant i <= |text| && Scanned(ps, text, consumed, i) && masks == Masks(consumed)
      decreases |text| - i
    {
      var m := ScanHere(ps, text, i, consumed);
      if m.Some? {
        MasksNext(consumed, Region(i, m.value));
        consumed := consumed + [Region(i, m.value)];
        masks := masks + [Mask(i + m.value.offset, i + m.value.offset + m.value.length)];
        i := i + m.value.total;
      } else {
        i := i + 1;
      }
    }
  }

  method ScanHere(ps: seq<Pattern>, text: seq<byte>, i: nat, ghost consumed: seq<Region>) returns (m: Option<Match>)
    requires AllUsable(ps) && i < |text| && Scanned(ps, text, consumed, i)
    ensures m.None? ==> Scanned(ps, text, consumed, i + 1)
    ensures m.Some? ==>
              && i < i + m.value.total <= |text|
              && Scanned(ps, text, consumed + [Region(i, m.value)], i + m.value.total)
  {
    m := MatchStructural(ps, text, i);
    BestIsInside(ps, text, i, |ps|);
    if m.Some? { ScannedTake(ps, text, consumed, i, m.value); } else { ScannedSkip(ps, text, consumed, i); }
  }

  lemma MasksNext(regions: seq<Region>, r: Region)
    ensures Masks(regions + [r]) == Masks(regions) + [MaskOf(r)]
  {
  }

  method RunIsSecret(bars: Bars, run: seq<byte>) returns (b: bool)
    ensures b == IsSecret(bars, run)
  {
    var digit, letter, hex := false, false, true;
    for k := 0 to |run|
      invariant digit == HasDigit(run[..k]) && letter == HasLetter(run[..k]) && hex == AllHex(run[..k])
    {
      CharacterCounts(run, k);
      if Digit(run[k]) { digit := true; }
      else if Upper(run[k]) || Lower(run[k]) { letter := true; }
      if !Hexadecimal(run[k]) { hex := false; }
    }
    assert run[..|run|] == run;
    return digit && letter && run in (if hex then bars.hex else bars.any);
  }

  lemma CharacterCounts(run: seq<byte>, k: nat)
    requires k < |run|
    ensures HasDigit(run[..k + 1]) == (HasDigit(run[..k]) || Digit(run[k]))
    ensures HasLetter(run[..k + 1]) == (HasLetter(run[..k]) || Upper(run[k]) || Lower(run[k]))
    ensures AllHex(run[..k + 1]) == (AllHex(run[..k]) && Hexadecimal(run[k]))
  {
    var a, b := run[..k], run[..k + 1];
    assert b[k] == run[k];
    assert forall j :: 0 <= j < k ==> a[j] == b[j];
  }

  /** The runs found so far in [a, b): those that qualify and start before i. */
  ghost predicate FoundBefore(bars: Bars, text: seq<byte>, a: nat, b: nat, i: nat, runs: seq<Mask>) {
    && Ordered(runs)
    && (forall k {:trigger IsRun(bars, text, a, b, i, runs[k])} ::
          0 <= k < |runs| ==> IsRun(bars, text, a, b, i, runs[k]))
    && (forall s :: Qualifies(bars, text, a, b, s) && s.start < i ==> s in runs)
  }

  ghost predicate IsRun(bars: Bars, text: seq<byte>, a: nat, b: nat, i: nat, s: Mask) {
    Qualifies(bars, text, a, b, s) && s.end <= i
  }

  lemma FoundFurther(bars: Bars, text: seq<byte>, a: nat, b: nat, i: nat, j: nat, runs: seq<Mask>)
    requires FoundBefore(bars, text, a, b, i, runs) && i <= j
    requires forall s :: Qualifies(bars, text, a, b, s) && i <= s.start < j ==> false
    ensures FoundBefore(bars, text, a, b, j, runs)
  {
    forall k | 0 <= k < |runs| ensures IsRun(bars, text, a, b, j, runs[k]) {
      assert IsRun(bars, text, a, b, i, runs[k]);
    }
  }

  lemma FoundAnother(bars: Bars, text: seq<byte>, a: nat, b: nat, i: nat, runs: seq<Mask>, r: Mask)
    requires FoundBefore(bars, text, a, b, i, runs) && Qualifies(bars, text, a, b, r) && r.start == i
    requires forall s :: Qualifies(bars, text, a, b, s) && i <= s.start < r.end ==> s == r
    ensures FoundBefore(bars, text, a, b, r.end, runs + [r])
  {
    var all := runs + [r];
    forall k | 0 <= k < |all| ensures IsRun(bars, text, a, b, r.end, all[k]) {
      if k < |runs| { assert IsRun(bars, text, a, b, i, runs[k]); }
    }
    forall j, k | 0 <= j < k < |all| ensures Before(all[j], all[k]) {
      if k < |runs| { assert Before(runs[j], runs[k]); } else { assert IsRun(bars, text, a, b, i, runs[j]); }
    }
    forall s | Qualifies(bars, text, a, b, s) && s.start < r.end ensures s in all {
      if s.start >= i { assert all[|runs|] == s; }
    }
  }

  /** A qualifying run that starts within a maximal run is that run. */
  lemma RunsCoincide(bars: Bars, text: seq<byte>, a: nat, b: nat, i: nat, r: nat, s: Mask)
    requires a <= i < r <= b <= |text| && Qualifies(bars, text, a, b, s) && i <= s.start < r
    requires forall k {:trigger text[k]} :: i <= k < r ==> In(Entropy, text[k])
    requires r < b ==> !In(Entropy, text[r])
    ensures s == Mask(i, r)
  {
  }

  /** Mask the qualifying runs of [a, b). */
  method ScanGap(bars: Bars, text: seq<byte>, a: nat, b: nat) returns (runs: seq<Mask>)
    requires a <= b <= |text|
    ensures FoundBefore(bars, text, a, b, b, runs)
  {
    runs := [];
    var i := a;
    while i < b
      invariant a <= i <= b && FoundBefore(bars, text, a, b, i, runs)
      invariant i > a && i < b ==> !In(Entropy, text[i - 1]) || !In(Entropy, text[i])
    {
      if !In(Entropy, text[i]) {
        FoundFurther(bars, text, a, b, i, i + 1, runs);
        i := i + 1;
      } else {
        var r := ScanRun(text, i, b);
        forall s | Qualifies(bars, text, a, b, s) && i <= s.start < r ensures s == Mask(i, r) {
          RunsCoincide(bars, text, a, b, i, r, s);
        }
        var secret := RunIsSecret(bars, text[i..r]);
        if r - i >= RUN_MIN && secret {
          assert Qualifies(bars, text, a, b, Mask(i, r));
          FoundAnother(bars, text, a, b, i, runs, Mask(i, r));
          runs := runs + [Mask(i, r)];
        } else {
          FoundFurther(bars, text, a, b, i, r, runs);
        }
        i := r;
      }
    }
  }

  method ScanRun(text: seq<byte>, i: nat, b: nat) returns (r: nat)
    requires i < b <= |text| && In(Entropy, text[i])
    ensures i < r <= b && (r < b ==> !In(Entropy, text[r]))
    ensures forall k {:trigger text[k]} :: i <= k < r ==> In(Entropy, text[k])
  {
    r := i + 1;
    while r < b && In(Entropy, text[r])
      invariant i < r <= b
      invariant forall k {:trigger text[k]} :: i <= k < r ==> In(Entropy, text[k])
    {
      r := r + 1;
    }
  }

  /** Every gap that the structural phase left, in order. */
  method ScanEntropy(bars: Bars, text: seq<byte>, consumed: seq<Region>) returns (runs: seq<Mask>)
    requires Laid(consumed, |text|)
    ensures RunsOf(bars, text, consumed, |consumed| + 1, runs)
  {
    runs := [];
    var pos := 0;
    for g := 0 to |consumed| + 1
      invariant g <= |consumed| ==> pos == GapStart(consumed, g)
      invariant RunsOf(bars, text, consumed, g, runs)
    {
      var end := if g < |consumed| then consumed[g].start else |text|;
      GapIsInside(consumed, |text|, g);
      var more := ScanGap(bars, text, pos, end);
      AddGap(bars, text, consumed, g, runs, more);
      runs := runs + more;
      if g < |consumed| { pos := End(consumed[g]); }
    }
  }

  ghost predicate SitsBelow(regions: seq<Region>, length: nat, g: nat, s: Mask) {
    exists h: nat :: h < g && Sits(regions, length, h, s)
  }

  lemma AddGapOrdered(regions: seq<Region>, length: nat, g: nat, runs: seq<Mask>, more: seq<Mask>)
    requires Laid(regions, length) && g <= |regions| && Ordered(runs) && Ordered(more)
    requires forall k {:trigger SitsBelow(regions, length, g, runs[k])} ::
               0 <= k < |runs| ==> SitsBelow(regions, length, g, runs[k])
    requires forall k {:trigger Sits(regions, length, g, more[k])} ::
               0 <= k < |more| ==> Sits(regions, length, g, more[k])
    ensures Ordered(runs + more)
  {
    var n, all := |runs|, runs + more;
    forall j, k | 0 <= j < k < |all| ensures Before(all[j], all[k]) {
      if k < n { assert Before(runs[j], runs[k]); }
      else if j >= n { assert Before(more[j - n], more[k - n]); }
      else {
        assert SitsBelow(regions, length, g, runs[j]);
        var h: nat :| h < g && Sits(regions, length, h, runs[j]);
        assert Sits(regions, length, g, more[k - n]);
        GapsAscend(regions, length, h, g);
      }
    }
  }

  lemma AddGapFound(bars: Bars, text: seq<byte>, regions: seq<Region>, g: nat, runs: seq<Mask>, more: seq<Mask>, k: nat)
    requires g <= |regions| && RunsOf(bars, text, regions, g, runs) && k < |runs + more|
    requires var a, b := GapStart(regions, g), GapEnd(regions, g, |text|); FoundBefore(bars, text, a, b, b, more)
    ensures InSomeGap(bars, text, regions, g + 1, (runs + more)[k])
  {
    var n, s := |runs|, (runs + more)[k];
    if k < n {
      assert InSomeGap(bars, text, regions, g, runs[k]);
      var h: nat :| h < g && InGap(bars, text, regions, h, runs[k]);
      assert h < g + 1 && InGap(bars, text, regions, h, s);
    } else {
      var from, to := GapStart(regions, g), GapEnd(regions, g, |text|);
      assert IsRun(bars, text, from, to, to, more[k - n]);
      assert g < g + 1 && InGap(bars, text, regions, g, s);
    }
  }

  lemma AddGap(bars: Bars, text: seq<byte>, regions: seq<Region>, g: nat, runs: seq<Mask>, more: seq<Mask>)
    requires Laid(regions, |text|) && g <= |regions| && RunsOf(bars, text, regions, g, runs)
    requires var a, b := GapStart(regions, g), GapEnd(regions, g, |text|); FoundBefore(bars, text, a, b, b, more)
    ensures RunsOf(bars, text, regions, g + 1, runs + more)
  {
    var all, next := runs + more, g + 1;
    var a, b := GapStart(regions, g), GapEnd(regions, g, |text|);
    forall k | 0 <= k < |all| ensures InSomeGap(bars, text, regions, next, all[k]) {
      AddGapFound(bars, text, regions, g, runs, more, k);
    }
    forall k | 0 <= k < |runs| ensures SitsBelow(regions, |text|, g, runs[k]) {
      assert InSomeGap(bars, text, regions, g, runs[k]);
      var h: nat :| h < g && InGap(bars, text, regions, h, runs[k]);
      assert Sits(regions, |text|, h, runs[k]);
    }
    forall k | 0 <= k < |more| ensures Sits(regions, |text|, g, more[k]) {
      assert IsRun(bars, text, a, b, b, more[k]);
    }
    AddGapOrdered(regions, |text|, g, runs, more);
    forall h, s | 0 <= h < next && InGap(bars, text, regions, h, s) ensures s in all {
    }
  }
}
