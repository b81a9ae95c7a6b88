/** The excerpt of a tool output within a byte budget: scan, select, merge, render. */
module Excerpt {
  import opened Statuses
  import opened Utf8
  import opened Words
  import opened Basics
  import opened ExcerptWindows

  const BUDGET_MIN: nat := 512
  const BUDGET_MAX: nat := 65536
  const SIZE_MAX: nat := 0xFFFF_FFFF_FFFF_FFFF

  // ---------------------------------------------------------------- rendering

  /** What printf writes for %zu. */
  function Decimal(n: nat): (r: seq<byte>)
    ensures r != [] && forall i :: 0 <= i < |r| ==> 48 <= r[i] <= 57
  {
    if n < 10 then [48 + n] else Decimal(n / 10) + [48 + n % 10]
  }

  function TenTo(k: nat): nat { if k == 0 then 1 else 10 * TenTo(k - 1) }

  lemma {:induction false} DecimalIsShort(n: nat, k: nat)
    requires k > 0 && n < TenTo(k)
    ensures |Decimal(n)| <= k
  {
    if n >= 10 {
      assert k > 1 by { assert TenTo(1) == 10; }
      DecimalIsShort(n / 10, k - 1);
    }
  }

  /** Every 64-bit size has at most 20 digits. */
  lemma SizeDigits(n: nat)
    requires n <= SIZE_MAX
    ensures |Decimal(n)| <= 20
  {
    assert TenTo(5) == 100000;
    assert TenTo(10) == 100000 * TenTo(5);
    assert TenTo(15) == 100000 * TenTo(10);
    assert TenTo(20) == 100000 * TenTo(15);
    DecimalIsShort(n, 20);
  }

  /** The fixed words of an excerpt. */
  datatype Wording = Wording(header: Around, span: Around, to: seq<byte>, why: seq<byte>)

  datatype Around = Around(before: seq<byte>, after: seq<byte>)

  predicate Fitting(w: Wording) {
    && IsAscii(w.header.before) && IsAscii(w.header.after) && |w.header.before| + |w.header.after| <= 87
    && IsAscii(w.span.before) && IsAscii(w.span.after) && IsAscii(w.to) && IsAscii(w.why)
    && |w.span.before| + |w.to| + |w.why| + |w.span.after| <= 13
  }

  function Word(r: Reason): (s: seq<byte>)
    ensures IsAscii(s) && |s| <= 11
  {
    match r
    case Compiler => Ascii("compiler")
    case Make => Ascii("build")
    case Traceback => Ascii("traceback")
    case Assertion => Ascii("assertion")
    case Test => Ascii("test")
    case Summary => Ascii("summary")
    case Head => Ascii("head")
    case Tail => Ascii("tail")
    case Diagnostics => Ascii("diagnostics")
    case Complete => Ascii("complete")
  }

  function Header(w: Wording, matches: nat): seq<byte> {
    w.header.before + Decimal(matches) + w.header.after
  }

  function Caption(w: Wording, s: Span): seq<byte> {
    w.span.before + Decimal(s.start) + w.to + Decimal(s.end) + w.why + Word(s.reason) + w.span.after
  }

  function Block(w: Wording, text: seq<byte>, s: Span): seq<byte>
    requires Good(text, s)
  {
    Caption(w, s) + text[s.start..s.end] + [10]
  }

  function Blocks(w: Wording, text: seq<byte>, spans: seq<Span>): seq<byte>
    requires AllGood(text, spans)
  {
    if spans == [] then [] else Blocks(w, text, spans[..|spans| - 1]) + Block(w, text, spans[|spans| - 1])
  }

  lemma BlockFits(w: Wording, text: seq<byte>, s: Span)
    requires Good(text, s) && |text| <= SIZE_MAX && Fitting(w)
    ensures |Block(w, text, s)| <= 65 + s.end - s.start
  {
    SizeDigits(s.start);
    SizeDigits(s.end);
  }

  lemma {:induction false} BlocksFit(w: Wording, text: seq<byte>, spans: seq<Span>)
    requires AllGood(text, spans) && |text| <= SIZE_MAX && Fitting(w)
    ensures |Blocks(w, text, spans)| <= 65 * |spans| + Total(spans)
  {
    if spans != [] {
      BlocksFit(w, text, spans[..|spans| - 1]);
      BlockFits(w, text, spans[|spans| - 1]);
    }
  }

  lemma BlocksNext(w: Wording, text: seq<byte>, spans: seq<Span>, i: nat)
    requires AllGood(text, spans) && i < |spans|
    ensures Blocks(w, text, spans[..i + 1]) == Blocks(w, text, spans[..i]) + Block(w, text, spans[i])
    ensures Total(spans[..i + 1]) == Total(spans[..i]) + spans[i].end - spans[i].start
  {
    assert spans[..i + 1][..i] == spans[..i];
  }

  lemma BlockIsText(w: Wording, text: seq<byte>, s: Span)
    requires Utf8.Valid(text) && Good(text, s) && Fitting(w)
    ensures Utf8.Valid(Block(w, text, s))
  {
    AsciiIsText(Caption(w, s));
    AsciiIsText([10]);
    SliceValid(text, s.start, s.end);
    ConcatValid(Caption(w, s), text[s.start..s.end]);
    ConcatValid(Caption(w, s) + text[s.start..s.end], [10]);
  }

  lemma {:induction false} BlocksAreText(w: Wording, text: seq<byte>, spans: seq<Span>)
    requires Utf8.Valid(text) && AllGood(text, spans) && Fitting(w)
    ensures Utf8.Valid(Blocks(w, text, spans))
  {
    if spans != [] {
      BlocksAreText(w, text, spans[..|spans| - 1]);
      BlockIsText(w, text, spans[|spans| - 1]);
      ConcatValid(Blocks(w, text, spans[..|spans| - 1]), Block(w, text, spans[|spans| - 1]));
    }
  }

  // ---------------------------------------------------------------- the budget

  function Slots(budget: nat): (slots: nat)
    requires BUDGET_MIN <= budget <= BUDGET_MAX
    ensures 2 <= slots <= SPANS && slots <= (budget - 256) / 128
  {
    if (budget - 256) / 128 > SPANS then SPANS else (budget - 256) / 128
  }

  /** The room of one of n windows; 64 bytes of it are for its caption. */
  function Room(budget: nat, n: nat): (width: nat)
    requires BUDGET_MIN <= budget <= BUDGET_MAX && 2 <= n <= SPANS && n <= (budget - 256) / 128
    ensures 64 <= width && n * (width + 64) <= budget - 256
  {
    assert 128 <= (budget - 256) / n by { RoomIsLarge(budget - 256, n); }
    (budget - 256) / n - 64
  }

  lemma RoomIsLarge(b: nat, n: nat)
    requires 2 <= n <= SPANS && n <= b / 128
    ensures 128 <= b / n && n * (b / n) <= b
  {
    assert n == 2 || n == 3 || n == 4 || n == 5 || n == 6 || n == 7 || n == 8;
  }

  /** What is selected of a text with diagnostics, and of one without. */
  function Selected(markers: seq<Marker>, text: seq<byte>, budget: nat): seq<Span>
    requires BUDGET_MIN <= budget <= BUDGET_MAX && budget < |text|
  {
    var slots := Slots(budget);
    var kept := Kept(Candidates(Hits(markers, text, Room(budget, slots)), |text|), slots);
    if kept == [] then Ends(text, Room(budget, 2)) else kept
  }

  function Ends(text: seq<byte>, width: nat): (s: seq<Span>)
    requires width < |text|
    ensures |s| == 2
  {
    [Window(text, 0, width, Head), Window(text, |text| - width, width, Tail)]
  }

  lemma EndsAreShaped(text: seq<byte>, width: nat)
    requires Boundary(text, 0) && 64 <= width < |text|
    ensures Shaped(text, width, Ends(text, width))
  {
    var h, t := Window(text, 0, width, Head), Window(text, |text| - width, width, Tail);
    WindowIsGood(text, 0, width, Head);
    WindowIsGood(text, |text| - width, width, Tail);
    WindowReaches(text, 0, width, Head, 0);
    WindowReaches(text, |text| - width, width, Tail, |text|);
    assert Before(h, t);
  }

  /** The width of the windows that are selected. */
  function Wide(markers: seq<Marker>, text: seq<byte>, budget: nat): nat
    requires BUDGET_MIN <= budget <= BUDGET_MAX && budget < |text|
  {
    var slots := Slots(budget);
    if Kept(Candidates(Hits(markers, text, Room(budget, slots)), |text|), slots) == [] then Room(budget, 2)
    else Room(budget, slots)
  }

  lemma KeptIsShaped(markers: seq<Marker>, text: seq<byte>, width: nat, slots: nat)
    requires Usable(markers) && slots >= 2
    ensures var kept := Kept(Candidates(Hits(markers, text, width), |text|), slots);
            Shaped(text, width, kept) && |kept| <= slots
  {
    var hits := Hits(markers, text, width);
    HitsAreOrderly(markers, text, width);
    CandidatesAscend(text, width, hits, |text|);
    KeptIsSome(Candidates(hits, |text|), slots, text, width);
  }

  lemma SelectedIsShaped(markers: seq<Marker>, text: seq<byte>, budget: nat, width: nat)
    requires BUDGET_MIN <= budget <= BUDGET_MAX && budget < |text| && Boundary(text, 0) && Usable(markers)
    requires width == Wide(markers, text, budget)
    ensures Shaped(text, width, Selected(markers, text, budget))
    ensures |Selected(markers, text, budget)| * (width + 64) <= budget - 256
    ensures 1 <= |Selected(markers, text, budget)| <= SPANS
  {
    var slots := Slots(budget);
    var wide := Room(budget, slots);
    KeptIsShaped(markers, text, wide, slots);
    var kept := Kept(Candidates(Hits(markers, text, wide), |text|), slots);
    KeptOrEnds(text, budget, slots, wide, kept, width, Selected(markers, text, budget));
  }

  /** What is selected when these windows are kept, or the two ends when none is. */
  lemma KeptOrEnds(text: seq<byte>, budget: nat, slots: nat, wide: nat, kept: seq<Span>, width: nat,
                   selected: seq<Span>)
    requires BUDGET_MIN <= budget <= BUDGET_MAX && budget < |text| && Boundary(text, 0)
    requires slots == Slots(budget) && wide == Room(budget, slots) && Shaped(text, wide, kept) && |kept| <= slots
    requires width == (if kept == [] then Room(budget, 2) else wide)
    requires selected == (if kept == [] then Ends(text, Room(budget, 2)) else kept)
    ensures Shaped(text, width, selected) && 1 <= |selected| <= SPANS && |selected| * (width + 64) <= budget - 256
  {
    if kept == [] {
      EndsAreShaped(text, width);
    } else {
      FewerFit(|kept|, slots, width + 64);
    }
  }

  function View(w: Wording, markers: seq<Marker>, text: seq<byte>, budget: nat): seq<byte>
    requires BUDGET_MIN <= budget <= BUDGET_MAX && budget < |text| && Boundary(text, 0) && Usable(markers) && Fitting(w)
  {
    var width := Room(budget, Slots(budget));
    Header(w, Matches(Hits(markers, text, width), |text|)) + Blocks(w, text, Shown(markers, text, budget))
  }

  function Shown(markers: seq<Marker>, text: seq<byte>, budget: nat): (m: seq<Span>)
    requires BUDGET_MIN <= budget <= BUDGET_MAX && budget < |text| && Boundary(text, 0) && Usable(markers)
    ensures Apart(m) && AllGood(text, m) && 1 <= |m| <= SPANS
  {
    SelectedIsShaped(markers, text, budget, Wide(markers, text, budget));
    MergeTidies(text, Selected(markers, text, budget), Wide(markers, text, budget));
    Merge(Selected(markers, text, budget))
  }

  lemma RenderFits(w: Wording, text: seq<byte>, selected: seq<Span>, width: nat, m: seq<Span>, matches: nat,
                   budget: nat)
    requires Utf8.Valid(text) && |text| <= SIZE_MAX && Fitting(w) && matches <= |text|
    requires Tidies(text, m, selected) && AtMost(selected, width) && |selected| <= SPANS
    requires |selected| * (width + 64) <= budget - 256
    ensures |Header(w, matches) + Blocks(w, text, m)| <= budget && Utf8.Valid(Header(w, matches) + Blocks(w, text, m))
  {
    TotalAtMost(selected, width);
    assert |selected| * (width + 64) == |selected| * width + 64 * |selected|;
    BlocksFit(w, text, m);
    BlocksAreText(w, text, m);
    SizeDigits(matches);
    AsciiIsText(Header(w, matches));
    ConcatValid(Header(w, matches), Blocks(w, text, m));
  }

  /** An excerpt is valid text within its budget, captions and decimal offsets included. */
  lemma ViewFits(w: Wording, markers: seq<Marker>, text: seq<byte>, budget: nat)
    requires BUDGET_MIN <= budget <= BUDGET_MAX && budget < |text| <= SIZE_MAX
    requires Utf8.Valid(text) && Boundary(text, 0) && Usable(markers) && Fitting(w)
    ensures |View(w, markers, text, budget)| <= budget && Utf8.Valid(View(w, markers, text, budget))
  {
    var selected, width := Selected(markers, text, budget), Wide(markers, text, budget);
    SelectedIsShaped(markers, text, budget, width);
    MergeTidies(text, selected, width);
    RenderFits(w, text, selected, width, Shown(markers, text, budget),
               Matches(Hits(markers, text, Room(budget, Slots(budget))), |text|), budget);
  }

  lemma ComposedFits(w: Wording, markers: seq<Marker>, text: seq<byte>, budget: nat, matches: nat)
    requires BUDGET_MIN <= budget <= BUDGET_MAX && budget < |text| <= SIZE_MAX
    requires Utf8.Valid(text) && Boundary(text, 0) && Usable(markers) && Fitting(w)
    requires matches == Matches(Hits(markers, text, Room(budget, Slots(budget))), |text|)
    ensures Header(w, matches) + Blocks(w, text, Shown(markers, text, budget)) == View(w, markers, text, budget)
    ensures |View(w, markers, text, budget)| <= budget
  {
    ViewFits(w, markers, text, budget);
  }

  predicate IsMarked(markers: seq<Marker>, text: seq<byte>, pos: nat) {
    exists j {:trigger Starts(text, pos, markers[j].text)} ::
      0 <= j < |markers| && Starts(text, pos, markers[j].text)
  }

  predicate IsFirstMark(markers: seq<Marker>, text: seq<byte>, pos: nat) {
    forall q :: 0 <= q < pos ==> !IsMarked(markers, text, q)
  }

  predicate IsLastMark(markers: seq<Marker>, text: seq<byte>, pos: nat) {
    forall q :: pos < q < |text| ==> !IsMarked(markers, text, q)
  }

  lemma HitIsMarked(markers: seq<Marker>, text: seq<byte>, width: nat, q: nat)
    requires q <= |text|
    ensures Hit(markers, text, width, q).Some? <==> IsMarked(markers, text, q)
  {
    if IsMarked(markers, text, q) {
      var j :| 0 <= j < |markers| && Starts(text, q, markers[j].text);
    }
  }

  lemma MarksAreHits(markers: seq<Marker>, text: seq<byte>, width: nat, pos: nat)
    requires pos < |text| && Hit(markers, text, width, pos).Some?
    ensures var hits := Hits(markers, text, width);
            && (IsFirstMark(markers, text, pos) ==> IsFirst(hits, pos))
            && (IsLastMark(markers, text, pos) ==> IsLast(hits, pos))
  {
    forall q | 0 <= q < |text| ensures Hit(markers, text, width, q).Some? <==> IsMarked(markers, text, q) {
      HitIsMarked(markers, text, width, q);
    }
  }

  /** The first and the last diagnostic are each shown whole. */
  lemma DiagnosticsAreShown(markers: seq<Marker>, text: seq<byte>, budget: nat, pos: nat, j: nat)
    requires BUDGET_MIN <= budget <= BUDGET_MAX && budget < |text|
    requires Utf8.Valid(text) && Boundary(text, 0) && Usable(markers)
    requires j < |markers| && Starts(text, pos, markers[j].text)
    requires IsFirstMark(markers, text, pos) || IsLastMark(markers, text, pos)
    ensures Covered(Shown(markers, text, budget), Span(pos, pos + |markers[j].text|, markers[j].reason))
  {
    var width := Room(budget, Slots(budget));
    HitCovers(markers, text, width, pos, j);
    HitsAreOrderly(markers, text, width);
    MarksAreHits(markers, text, width, pos);
    KeptAreShown(text, width, Hits(markers, text, width), Slots(budget), pos,
                 Span(pos, pos + |markers[j].text|, markers[j].reason));
  }

  lemma KeptAreShown(text: seq<byte>, width: nat, hits: seq<Option<Span>>, slots: nat, pos: nat, s: Span)
    requires |hits| == |text| && Orderly(text, width, hits) && slots >= 2 && (IsFirst(hits, pos) || IsLast(hits, pos))
    requires Contains(hits[pos].value, s)
    ensures var kept := Kept(Candidates(hits, |text|), slots); kept != [] && Covered(Merge(kept), s)
  {
    CandidatesAscend(text, width, hits, |text|);
    var c := Candidates(hits, |text|);
    KeptIsSome(c, slots, text, width);
    var k := KeptHolds(text, width, hits, slots, pos);
    MergeCovers(text, Kept(c, slots), width, k);
    CoveredInside(Merge(Kept(c, slots)), Kept(c, slots)[k], s);
  }

  lemma CoveredInside(spans: seq<Span>, t: Span, s: Span)
    requires Covered(spans, t) && Contains(t, s)
    ensures Covered(spans, s)
  {
    var i :| 0 <= i < |spans| && Contains(spans[i], t);
    assert Contains(spans[i], s);
  }

  lemma KeptHolds(text: seq<byte>, width: nat, hits: seq<Option<Span>>, slots: nat, pos: nat) returns (k: nat)
    requires Orderly(text, width, hits) && slots >= 2 && (IsFirst(hits, pos) || IsLast(hits, pos))
    ensures var s := Kept(Candidates(hits, |hits|), slots); k < |s| && Contains(s[k], hits[pos].value)
  {
    var c := Candidates(hits, |hits|);
    KeptNext(c, Span(0, 0, Complete), slots);
    if IsFirst(hits, pos) {
      FirstCandidate(hits, |hits|, pos);
      k := 0;
    } else {
      LastCandidate(text, width, hits, |hits|, pos);
      k := |Kept(c, slots)| - 1;
    }
  }
}
