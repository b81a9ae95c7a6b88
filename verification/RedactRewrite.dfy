/** Sorting the masks, measuring the output, filling it, and the patterns in use. */
module RedactRewrite {
  import opened Statuses
  import opened Utf8
  import opened RedactPatterns
  import opened RedactMasks
  import opened RedactShapes
  import opened RedactRuns
  import opened Redact
  import opened RedactScan

  // ---------------------------------------------------------------- sorting

  lemma InsertKeepsOrder(r: seq<Mask>, j: nat, m: Mask)
    requires Ordered(r) && j <= |r|
    requires forall k {:trigger Before(r[k], m)} :: 0 <= k < j ==> Before(r[k], m)
    requires forall k {:trigger Before(m, r[k])} :: j <= k < |r| ==> Before(m, r[k])
    ensures Ordered(r[..j] + [m] + r[j..])
  {
    var t := r[..j] + [m] + r[j..];
    forall x, y | 0 <= x < y < |t| ensures Before(t[x], t[y]) {
      if x != j && y != j {
        assert Before(r[if x < j then x else x - 1], r[if y < j then y else y - 1]);
      } else if x == j {
        assert Before(m, r[y - 1]);
      } else {
        assert Before(r[x], m);
      }
    }
  }

  method Insert(r: seq<Mask>, m: Mask) returns (t: seq<Mask>)
    requires Ordered(r) && forall k {:trigger Apart(r[k], m)} :: 0 <= k < |r| ==> Apart(r[k], m)
    ensures Ordered(t) && multiset(t) == multiset(r) + multiset{m}
  {
    var j := 0;
    while j < |r| && r[j].start < m.start
      invariant j <= |r| && forall k {:trigger Before(r[k], m)} :: 0 <= k < j ==> Before(r[k], m)
    {
      assert Apart(r[j], m);
      j := j + 1;
    }
    forall k | j <= k < |r| ensures Before(m, r[k]) {
      assert Apart(r[j], m) && Apart(r[k], m);
      if j < k { assert Before(r[j], r[k]); }
    }
    InsertKeepsOrder(r, j, m);
    assert r == r[..j] + r[j..];
    t := r[..j] + [m] + r[j..];
  }

  /** Sorting by start; masks that are apart have one sorted order, whatever the sort. */
  method SortByStart(masks: seq<Mask>) returns (r: seq<Mask>)
    requires AllApart(masks)
    ensures Ordered(r) && multiset(r) == multiset(masks)
  {
    r := [];
    for i := 0 to |masks|
      invariant Ordered(r) && multiset(r) == multiset(masks[..i])
    {
      forall k | 0 <= k < |r| ensures Apart(r[k], masks[i]) {
        assert r[k] in multiset(masks[..i]);
        var x :| 0 <= x < i && masks[..i][x] == r[k];
        assert Apart(masks[x], masks[i]);
      }
      r := Insert(r, masks[i]);
      assert masks[..i + 1] == masks[..i] + [masks[i]];
    }
    assert masks[..|masks|] == masks;
  }

  lemma SameMasks(text: seq<byte>, masks: seq<Mask>, sorted: seq<Mask>)
    requires multiset(sorted) == multiset(masks) && Ordered(sorted)
    requires forall k {:trigger Real(text, masks[k])} :: 0 <= k < |masks| ==> Real(text, masks[k])
    ensures |sorted| == |masks| && Proper(text, sorted)
    ensures AllClean(text, masks) ==> AllClean(text, sorted)
  {
    assert |multiset(sorted)| == |sorted| && |multiset(masks)| == |masks|;
    forall k | 0 <= k < |sorted|
      ensures Real(text, sorted[k]) && (AllClean(text, masks) ==> CleanMask(text, sorted[k]))
    {
      assert sorted[k] in multiset(masks);
      var x :| 0 <= x < |masks| && masks[x] == sorted[k];
      assert Real(text, masks[x]);
    }
  }

  // ---------------------------------------------------------------- writing

  method Copy(dst: array<byte>, d: nat, s: seq<byte>) returns (next: nat)
    requires d + |s| <= dst.Length
    modifies dst
    ensures next == d + |s| && dst[..next] == old(dst[..d]) + s
  {
    forall k | 0 <= k < |s| {
      dst[d + k] := s[k];
    }
    next := d + |s|;
    assert dst[..next][..d] == old(dst[..d]);
    assert dst[..next][d..] == s;
    assert dst[..next] == dst[..next][..d] + dst[..next][d..];
  }

  method MaskedBytes(masks: seq<Mask>) returns (n: int)
    ensures n == Masked(masks)
  {
    n := 0;
    for i := 0 to |masks|
      invariant n == Masked(masks[..i])
    {
      assert masks[..i + 1][..i] == masks[..i];
      n := n + masks[i].end - masks[i].start;
    }
    assert masks[..|masks|] == masks;
  }

  lemma PrefixFits(digests: map<seq<byte>, seq<byte>>, text: seq<byte>, masks: seq<Mask>, i: nat)
    requires Proper(text, masks) && i < |masks|
    ensures Proper(text, masks[..i]) && Proper(text, masks[..i + 1]) && Real(text, masks[i])
    ensures EndOf(masks[..i]) <= masks[i].start && EndOf(masks[..i + 1]) == masks[i].end
    ensures Rewritten(digests, text, masks[..i + 1]) ==
              Rewritten(digests, text, masks[..i]) + text[EndOf(masks[..i])..masks[i].start]
              + Token(digests, text[masks[i].start..masks[i].end])
  {
    var next := masks[..i + 1];
    assert forall k :: 0 <= k < i + 1 ==> Real(text, masks[k]);
    assert Proper(text, next);
    FrontIsProper(text, next);
    assert next[..i] == masks[..i];
  }

  lemma {:induction false} PrefixIsShorter(digests: map<seq<byte>, seq<byte>>, text: seq<byte>, masks: seq<Mask>,
                                           i: nat)
    requires Proper(text, masks) && i <= |masks|
    ensures Proper(text, masks[..i]) && |Rewritten(digests, text, masks[..i])| <= |Rewritten(digests, text, masks)|
    decreases |masks| - i
  {
    if i < |masks| {
      PrefixIsShorter(digests, text, masks, i + 1);
      PrefixFits(digests, text, masks, i);
    } else {
      assert masks[..i] == masks;
    }
  }

  /** The length of the output, computed before it is allocated. */
  lemma OutputLength(digests: map<seq<byte>, seq<byte>>, text: seq<byte>, masks: seq<Mask>)
    requires Proper(text, masks)
    ensures |Output(digests, text, masks)| == |text| - Masked(masks) + |masks| * TOKEN_BYTES
    ensures |Rewritten(digests, text, masks)| <= |Output(digests, text, masks)|
  {
    RewrittenLength(digests, text, masks);
    ProperEnds(text, masks);
  }

  /** One mask: the bytes before it, then its token, piece by piece. */
  method WriteMask(digests: map<seq<byte>, seq<byte>>, text: seq<byte>, from: nat, s: Mask, dst: array<byte>, d: nat)
    returns (next: nat)
    requires from <= s.start < s.end <= |text| && d + s.start - from + TOKEN_BYTES <= dst.Length
    modifies dst
    ensures next == d + s.start - from + TOKEN_BYTES
    ensures dst[..next] == old(dst[..d]) + text[from..s.start] + Token(digests, text[s.start..s.end])
  {
    ghost var was := dst[..d];
    var digits := DigestOf(digests, text[s.start..s.end]);
    next := Copy(dst, d, text[from..s.start]);
    next := Copy(dst, next, [0xC2, 0xAB]);
    next := Copy(dst, next, Label());
    next := Copy(dst, next, digits);
    next := Copy(dst, next, [0xC2, 0xBB]);
    var gap: seq<byte> := text[from..s.start];
    assert dst[..next] == was + gap + [0xC2, 0xAB] + Label() + digits + [0xC2, 0xBB];
    Reassociate(was + gap, [0xC2, 0xAB], Label(), digits, [0xC2, 0xBB]);
  }

  lemma Reassociate(a: seq<byte>, b: seq<byte>, c: seq<byte>, d: seq<byte>, e: seq<byte>)
    ensures a + b + c + d + e == a + (b + c + d + e)
  {
  }

  /** Fill the output. Every write is within the length computed beforehand, and all of it is written. */
  method Rewrite(digests: map<seq<byte>, seq<byte>>, text: seq<byte>, masks: seq<Mask>) returns (out: seq<byte>)
    requires Proper(text, masks)
    ensures out == Output(digests, text, masks)
  {
    var masked := MaskedBytes(masks);
    OutputLength(digests, text, masks);
    ProperEnds(text, masks);
    ghost var output := Output(digests, text, masks);
    var dst := new byte[|text| - masked + |masks| * TOKEN_BYTES];
    var d: nat, pos: nat := 0, 0;
    for i := 0 to |masks|
      invariant Proper(text, masks[..i]) && pos == EndOf(masks[..i]) <= |text|
      invariant d <= dst.Length && dst[..d] == Rewritten(digests, text, masks[..i])
    {
      PrefixFits(digests, text, masks, i);
      PrefixIsShorter(digests, text, masks, i + 1);
      d := WriteMask(digests, text, pos, masks[i], dst, d);
      pos := masks[i].end;
    }
    assert masks[..|masks|] == masks;
    d := Copy(dst, d, text[pos..]);
    assert dst[..d] == output && d == dst.Length;
    return dst[..];
  }

  // ---------------------------------------------------------------- the whole

  /** The masks of a text: one for each structural match, one for each qualifying run of a gap. */
  ghost predicate IsMasked(ps: seq<Pattern>, bars: Bars, text: seq<byte>, regions: seq<Region>, runs: seq<Mask>,
                           masks: seq<Mask>) {
    && Scanned(ps, text, regions, |text|) && RunsOf(bars, text, regions, |regions| + 1, runs)
    && Ordered(masks) && multiset(masks) == multiset(Masks(regions) + runs)
  }

  lemma MasksAreReal(regions: seq<Region>, text: seq<byte>, runs: seq<Mask>)
    requires Laid(regions, |text|) && AllSit(regions, |text|, runs)
    ensures forall k {:trigger Real(text, (Masks(regions) + runs)[k])} ::
              0 <= k < |regions| + |runs| ==> Real(text, (Masks(regions) + runs)[k])
  {
    var n, all := |regions|, Masks(regions) + runs;
    forall k | 0 <= k < |all| ensures Real(text, all[k]) {
      if k < n {
        assert Fits(regions[k], |text|);
      } else {
        assert SitsSomewhere(regions, |text|, runs[k - n]);
        var g: nat :| Sits(regions, |text|, g, runs[k - n]);
        GapIsInside(regions, |text|, g);
      }
    }
  }

  /** Redact a text: nothing when no mask is found, else the output with every mask replaced. */
  method Redacted(ps: seq<Pattern>, bars: Bars, digests: map<seq<byte>, seq<byte>>, text: seq<byte>)
    returns (out: Option<seq<byte>>, masked: nat,
             ghost regions: seq<Region>, ghost runs: seq<Mask>, ghost masks: seq<Mask>)
    requires AllUsable(ps)
    ensures text != [] ==> IsMasked(ps, bars, text, regions, runs, masks)
    ensures text != [] ==> SecretsHidden(ps, text, regions, masks) && MasksAre(bars, text, regions, masks)
    ensures text == [] ==> masks == []
    ensures Proper(text, masks) && masked == |masks|
    ensures out == if masks == [] then None else Some(Output(digests, text, masks))
    ensures out.Some? ==> |out.value| == |text| - Masked(masks) + masked * TOKEN_BYTES
    ensures out.Some? && Utf8.Valid(text) ==> Utf8.Valid(out.value)
  {
    regions, runs, masks := [], [], [];
    if text == [] { return None, 0, regions, runs, masks; }
    var consumed, found := ScanStructural(ps, text);
    ScannedIsLaid(ps, text, consumed);
    var more := ScanEntropy(bars, text, consumed);
    RunsSit(bars, text, consumed, more);
    MasksAreApart(consumed, |text|, more);
    MasksAreReal(consumed, text, more);
    var sorted := SortByStart(found + more);
    SameMasks(text, found + more, sorted);
    SecretsAreHidden(ps, text, consumed, more, sorted);
    AllMasksAre(bars, text, consumed, more, sorted);
    regions, runs, masks, masked := consumed, more, sorted, |sorted|;
    if |sorted| == 0 { return None, 0, regions, runs, masks; }
    OutputLength(digests, text, sorted);
    var written := Rewrite(digests, text, sorted);
    out := Some(written);
    if Utf8.Valid(text) {
      TextEndsAscii(text);
      MasksAreClean(ps, bars, text, consumed, more);
      OutputIsText(digests, text, sorted);
    }
  }
}
