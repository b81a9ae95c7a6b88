/** What of a text its excerpt holds: the first diagnostic, the most recent ones, or the two ends. */
module ExcerptShown {
  import opened Statuses
  import opened Utf8
  import opened Words
  import opened Basics
  import opened ExcerptWindows
  import opened Excerpt
  import opened ExcerptReader

  // ---------------------------------------------------------------- the number of markers

  /** The positions before n at which a marker starts. */
  ghost function Marks(markers: seq<Marker>, text: seq<byte>, n: nat): set<nat> {
    set q: nat | q < n && IsMarked(markers, text, q)
  }

  /** The markers counted are the positions at which one starts. */
  lemma {:induction false} MatchesAreMarks(markers: seq<Marker>, text: seq<byte>, width: nat, n: nat)
    requires n <= |text|
    ensures Matches(Hits(markers, text, width), n) == |Marks(markers, text, n)|
  {
    if n > 0 {
      MatchesAreMarks(markers, text, width, n - 1);
      HitIsMarked(markers, text, width, n - 1);
      assert Marks(markers, text, n)
          == Marks(markers, text, n - 1) + if IsMarked(markers, text, n - 1) then {n - 1} else {};
    }
  }

  // ---------------------------------------------------------------- the most recent markers

  lemma ExtendGrows(c: seq<Span>, s: Span)
    ensures c <= Extend(c, s) && |Extend(c, s)| <= |c| + 1
  {
  }

  /** Later markers add candidates, no more than one each. */
  lemma {:induction false} CandidatesGrow(hits: seq<Option<Span>>, p: nat, n: nat)
    requires p <= n <= |hits|
    ensures Candidates(hits, p) <= Candidates(hits, n)
    ensures |Candidates(hits, n)| - |Candidates(hits, p)| <= Matches(hits, n) - Matches(hits, p)
  {
    if p < n {
      CandidatesGrow(hits, p, n - 1);
      if hits[n - 1].Some? { ExtendGrows(Candidates(hits, n - 1), hits[n - 1].value); }
    }
  }

  /** A window found last so far is in the last candidate so far. */
  lemma CandidateOf(text: seq<byte>, width: nat, hits: seq<Option<Span>>, p: nat)
    requires Orderly(text, width, hits) && p < |hits| && hits[p].Some?
    ensures var c := Candidates(hits, p + 1); c != [] && Contains(c[|c| - 1], hits[p].value)
  {
    CandidatesComeFromHits(hits, p);
    var c := Candidates(hits, p);
    if c != [] { NextIsNotBefore(text, width, hits, p, c[|c| - 1]); }
  }

  /** With fewer later markers than there are slots for the most recent, a candidate is kept. */
  lemma RecentIsKept(text: seq<byte>, width: nat, hits: seq<Option<Span>>, slots: nat, p: nat) returns (k: nat)
    requires Orderly(text, width, hits) && p < |hits| && hits[p].Some? && slots >= 2
    requires Matches(hits, |hits|) - Matches(hits, p + 1) + 2 <= slots
    ensures var s := Kept(Candidates(hits, |hits|), slots); k < |s| && Contains(s[k], hits[p].value)
  {
    CandidateOf(text, width, hits, p);
    CandidatesGrow(hits, p + 1, |hits|);
    var c, i := Candidates(hits, |hits|), |Candidates(hits, p + 1)| - 1;
    if |c| <= slots {
      k := i;
    } else {
      k := 1 + i - (|c| - (slots - 1));
      assert Kept(c, slots)[k] == c[i];
    }
  }

  /** The marker at pos is one of the most recent that an excerpt has slots for, all but one of them. */
  ghost predicate IsRecentMark(markers: seq<Marker>, text: seq<byte>, budget: nat, pos: nat) {
    var later := |Marks(markers, text, |text|)| - |Marks(markers, text, pos + 1)|;
    later + 2 <= 8 && later + 2 <= (budget - 256) / 128
  }

  lemma RecentIsShown(markers: seq<Marker>, text: seq<byte>, budget: nat, pos: nat, j: nat)
    requires BUDGET_MIN <= budget <= BUDGET_MAX && budget < |text|
    requires Utf8.Valid(text) && Boundary(text, 0) && Usable(markers)
    requires j < |markers| && Starts(text, pos, markers[j].text) && IsRecentMark(markers, text, budget, pos)
    ensures Covered(Shown(markers, text, budget), Span(pos, pos + |markers[j].text|, markers[j].reason))
  {
    var slots, width := Slots(budget), Room(budget, Slots(budget));
    var hits, s := Hits(markers, text, width), Span(pos, pos + |markers[j].text|, markers[j].reason);
    HitCovers(markers, text, width, pos, j);
    HitsAreOrderly(markers, text, width);
    MatchesAreMarks(markers, text, width, |text|);
    MatchesAreMarks(markers, text, width, pos + 1);
    CandidatesAscend(text, width, hits, |text|);
    KeptIsSome(Candidates(hits, |text|), slots, text, width);
    var k := RecentIsKept(text, width, hits, slots, pos);
    KeptIsCovered(text, width, Kept(Candidates(hits, |text|), slots), k, s);
  }

  lemma KeptIsCovered(text: seq<byte>, width: nat, kept: seq<Span>, k: nat, s: Span)
    requires Shaped(text, width, kept) && k < |kept| && Contains(kept[k], s)
    ensures Covered(Merge(kept), s)
  {
    MergeCovers(text, kept, width, k);
    CoveredInside(Merge(kept), kept[k], s);
  }

  // ---------------------------------------------------------------- the two ends

  lemma {:induction false} NothingIsCandidate(markers: seq<Marker>, text: seq<byte>, width: nat, n: nat)
    requires n <= |text| && forall q :: 0 <= q < |text| ==> !IsMarked(markers, text, q)
    ensures Candidates(Hits(markers, text, width), n) == []
  {
    if n > 0 {
      NothingIsCandidate(markers, text, width, n - 1);
      HitIsMarked(markers, text, width, n - 1);
    }
  }

  /** Of a text without a marker both ends are shown: every boundary within half of the room from the
    * start, or from the end, is reached. */
  lemma UnmarkedShowsEnds(markers: seq<Marker>, text: seq<byte>, budget: nat, q: nat)
    requires BUDGET_MIN <= budget <= BUDGET_MAX && budget < |text| && Boundary(text, 0) && Usable(markers)
    requires Boundary(text, q) && forall p :: 0 <= p < |text| ==> !IsMarked(markers, text, p)
    ensures q <= (budget - 256) / 2 - 64 ==> Covered(Shown(markers, text, budget), Span(0, q, Head))
    ensures q >= |text| - ((budget - 256) / 2 - 64) ==> Covered(Shown(markers, text, budget), Span(q, |text|, Tail))
  {
    var width := Room(budget, 2);
    NothingIsCandidate(markers, text, Room(budget, Slots(budget)), |text|);
    EndsAreShaped(text, width);
    var ends := Ends(text, width);
    if q <= width {
      WindowReaches(text, 0, width, Head, 0);
      WindowReaches(text, 0, width, Head, q);
      KeptIsCovered(text, width, ends, 0, Span(0, q, Head));
    }
    if q >= |text| - width {
      WindowReaches(text, |text| - width, width, Tail, q);
      WindowReaches(text, |text| - width, width, Tail, |text|);
      KeptIsCovered(text, width, ends, 1, Span(q, |text|, Tail));
    }
  }

  // ---------------------------------------------------------------- the reasons

  lemma {:induction false} MergeReasons(spans: seq<Span>, s: Span)
    requires s in Merge(spans)
    ensures s in spans || s.reason == Diagnostics
  {
    var front, last := spans[..|spans| - 1], spans[|spans| - 1];
    var m := Merge(front);
    if s in m {
      MergeReasons(front, s);
    } else if s != last {
      assert m != [] && s == Merged(m[|m| - 1], last);
    }
  }

  lemma {:induction false} CandidateIsHit(hits: seq<Option<Span>>, n: nat, s: Span)
    requires n <= |hits| && s in Candidates(hits, n)
    ensures exists q :: 0 <= q < n && hits[q] == Some(s)
  {
    if s in Candidates(hits, n - 1) {
      CandidateIsHit(hits, n - 1, s);
    } else {
      assert hits[n - 1] == Some(s);
    }
  }

  /** The j-th marker is the first of the table that starts at pos, and the span has its reason and shows
    * all of it. */
  ghost predicate Explains(markers: seq<Marker>, text: seq<byte>, pos: nat, j: nat, s: Span) {
    && j < |markers| && Starts(text, pos, markers[j].text) && s.reason == markers[j].reason
    && s.start <= pos && pos + |markers[j].text| <= s.end
    && forall i {:trigger markers[i]} :: 0 <= i < j ==> !Starts(text, pos, markers[i].text)
  }

  lemma HitExplains(markers: seq<Marker>, text: seq<byte>, width: nat, q: nat)
    requires Utf8.Valid(text) && Usable(markers) && width >= 64 && q <= |text|
    requires Hit(markers, text, width, q).Some?
    ensures Explains(markers, text, q, Matching(markers, text, q, 0), Hit(markers, text, width, q).value)
  {
    HitCovers(markers, text, width, q, Matching(markers, text, q, 0));
  }

  lemma CandidateExplained(markers: seq<Marker>, text: seq<byte>, width: nat, s: Span)
    requires Utf8.Valid(text) && Usable(markers) && width >= 64
    requires s in Candidates(Hits(markers, text, width), |text|)
    ensures exists pos: nat, j: nat :: Explains(markers, text, pos, j, s)
  {
    var hits := Hits(markers, text, width);
    CandidateIsHit(hits, |text|, s);
    var q :| 0 <= q < |text| && hits[q] == Some(s);
    HitExplains(markers, text, width, q);
  }

  /** The reason of a span is that of a marker it shows, or that several windows were merged; or, of a text
    * without a marker, that it is one of the ends. */
  lemma ReasonsAreTrue(markers: seq<Marker>, text: seq<byte>, budget: nat, s: Span)
    requires BUDGET_MIN <= budget <= BUDGET_MAX && budget < |text|
    requires Utf8.Valid(text) && Boundary(text, 0) && Usable(markers) && s in Shown(markers, text, budget)
    ensures || s.reason == Diagnostics
            || (exists pos: nat, j: nat :: Explains(markers, text, pos, j, s))
            || (s.reason in {Head, Tail} && Marks(markers, text, |text|) == {})
  {
    var slots, width := Slots(budget), Room(budget, Slots(budget));
    var c := Candidates(Hits(markers, text, width), |text|);
    var selected := Selected(markers, text, budget);
    MergeReasons(selected, s);
    if s in selected && c != [] {
      assert s in c;
      CandidateExplained(markers, text, width, s);
    }
    CandidatesComeFromHits(Hits(markers, text, width), |text|);
    MatchesAreMarks(markers, text, width, |text|);
  }

  // ---------------------------------------------------------------- the bytes

  /** The word is somewhere in the text. */
  ghost predicate Occurs(b: seq<byte>, word: seq<byte>) {
    exists at: nat :: Starts(b, at, word)
  }

  lemma OccursAmong(a: seq<byte>, word: seq<byte>, c: seq<byte>)
    ensures Occurs(a + word + c, word)
  {
    assert (a + word + c)[|a|..|a| + |word|] == word;
    assert Starts(a + word + c, |a|, word);
  }

  lemma OccursWithin(a: seq<byte>, b: seq<byte>, c: seq<byte>, word: seq<byte>)
    requires Occurs(b, word)
    ensures Occurs(a + b + c, word)
  {
    var at: nat :| Starts(b, at, word);
    assert (a + b + c)[|a| + at..|a| + at + |word|] == b[at..at + |word|];
    assert Starts(a + b + c, |a| + at, word);
  }

  lemma SliceOfSlice(s: seq<byte>, a: nat, b: nat, c: nat, d: nat)
    requires a <= b <= |s| && c <= d <= b - a
    ensures s[a..b][c..d] == s[a + c..a + d]
  {
    assert forall k :: 0 <= k < d - c ==> s[a..b][c..d][k] == s[a + c..a + d][k];
  }

  lemma PartOccurs(b: seq<byte>, text: seq<byte>, i: nat, j: nat, pos: nat, word: seq<byte>)
    requires i <= pos && pos + |word| <= j <= |text| && Starts(text, pos, word) && Occurs(b, text[i..j])
    ensures Occurs(b, word)
  {
    var at: nat :| Starts(b, at, text[i..j]);
    SliceOfSlice(b, at, at + (j - i), pos - i, pos - i + |word|);
    SliceOfSlice(text, i, j, pos - i, pos - i + |word|);
    assert Starts(b, at + (pos - i), word);
  }

  lemma BlockHolds(w: Wording, text: seq<byte>, s: Span, before: seq<byte>, after: seq<byte>)
    requires Good(text, s)
    ensures Occurs(before + (Block(w, text, s) + after), text[s.start..s.end])
  {
    OccursAmong(Caption(w, s), text[s.start..s.end], [10]);
    OccursWithin(before, Block(w, text, s), after, text[s.start..s.end]);
    Together(before, Block(w, text, s), after);
  }

  lemma {:induction false} BlocksHold(w: Wording, text: seq<byte>, spans: seq<Span>, after: seq<byte>, s: Span)
    requires AllGood(text, spans) && s in spans && s.start <= s.end <= |text|
    ensures Occurs(Blocks(w, text, spans) + after, text[s.start..s.end])
    decreases |spans|
  {
    var front, last := LastSpan(w, text, spans, after);
    if s == last {
      BlockHolds(w, text, last, Blocks(w, text, front), after);
    } else {
      BlocksHold(w, text, front, Block(w, text, last) + after, s);
    }
  }

  /** Whatever is covered is in the excerpt. */
  lemma CoveredOccurs(w: Wording, text: seq<byte>, spans: seq<Span>, header: seq<byte>, pos: nat, word: seq<byte>,
                      reason: Reason)
    requires AllGood(text, spans) && Starts(text, pos, word) && Covered(spans, Span(pos, pos + |word|, reason))
    ensures Occurs(header + Blocks(w, text, spans), word)
  {
    var k :| 0 <= k < |spans| && Contains(spans[k], Span(pos, pos + |word|, reason));
    assert Good(text, spans[k]);
    BlocksHold(w, text, spans, [], spans[k]);
    var blocks := Blocks(w, text, spans);
    assert blocks + [] == blocks && header + blocks + [] == header + blocks;
    PartOccurs(blocks, text, spans[k].start, spans[k].end, pos, word);
    OccursWithin(header, blocks, [], word);
  }

  /** The first marker, or one of the most recent. */
  ghost predicate IsKeptMark(markers: seq<Marker>, text: seq<byte>, budget: nat, pos: nat) {
    IsFirstMark(markers, text, pos) || IsRecentMark(markers, text, budget, pos)
  }

  /** The first marker of the text and its most recent ones are in the excerpt. */
  ghost predicate HoldsMarks(markers: seq<Marker>, text: seq<byte>, budget: nat, b: seq<byte>) {
    forall pos: nat, j: nat {:trigger Starts(text, pos, markers[j].text)} | j < |markers| ::
      Starts(text, pos, markers[j].text) && IsKeptMark(markers, text, budget, pos) ==> Occurs(b, markers[j].text)
  }

  lemma MarkOccurs(w: Wording, markers: seq<Marker>, text: seq<byte>, budget: nat, pos: nat, j: nat, header: seq<byte>)
    requires BUDGET_MIN <= budget <= BUDGET_MAX && budget < |text|
    requires Utf8.Valid(text) && Boundary(text, 0) && Usable(markers)
    requires j < |markers| && Starts(text, pos, markers[j].text) && IsKeptMark(markers, text, budget, pos)
    ensures Occurs(header + Blocks(w, text, Shown(markers, text, budget)), markers[j].text)
  {
    if IsFirstMark(markers, text, pos) {
      DiagnosticsAreShown(markers, text, budget, pos, j);
    } else {
      RecentIsShown(markers, text, budget, pos, j);
    }
    CoveredOccurs(w, text, Shown(markers, text, budget), header, pos, markers[j].text, markers[j].reason);
  }

  lemma ViewHoldsMarks(w: Wording, markers: seq<Marker>, text: seq<byte>, budget: nat, header: seq<byte>,
                       view: seq<byte>)
    requires BUDGET_MIN <= budget <= BUDGET_MAX && budget < |text|
    requires Utf8.Valid(text) && Boundary(text, 0) && Usable(markers)
    requires view == header + Blocks(w, text, Shown(markers, text, budget))
    ensures HoldsMarks(markers, text, budget, view)
  {
    forall pos: nat, j: nat
      | j < |markers| && Starts(text, pos, markers[j].text) && IsKeptMark(markers, text, budget, pos)
      ensures Occurs(view, markers[j].text)
    {
      MarkOccurs(w, markers, text, budget, pos, j, header);
    }
  }
}
