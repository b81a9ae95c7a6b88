/** Which byte ranges of a long tool output an excerpt shows: the window of the first
  * diagnostic, those of the most recent ones, and how touching windows merge. */
module ExcerptWindows {
  import opened Statuses
  import opened Utf8
  import opened Words

  const SPANS: nat := 8
  const MARKER_MAX: nat := 34

  /** Why a range is shown. */
  datatype Reason = Compiler | Make | Traceback | Assertion | Test | Summary | Head | Tail | Diagnostics | Complete

  datatype Marker = Marker(text: seq<byte>, reason: Reason)

  datatype Span = Span(start: nat, end: nat, reason: Reason)

  predicate Usable(markers: seq<Marker>) {
    forall j :: 0 <= j < |markers| ==>
      && 1 <= |markers[j].text| <= MARKER_MAX && IsAscii(markers[j].text)
  }

  // ---------------------------------------------------------------- windows

  /** The first marker at or after j in the table that starts at pos, or the table's length. */
  function Matching(markers: seq<Marker>, text: seq<byte>, pos: nat, j: nat): (r: nat)
    requires j <= |markers|
    ensures j <= r <= |markers| && (r < |markers| ==> Starts(text, pos, markers[r].text))
    ensures forall i {:trigger Starts(text, pos, markers[i].text)} :: j <= i < r ==> !Starts(text, pos, markers[i].text)
    decreases |markers| - j
  {
    if j < |markers| && !Starts(text, pos, markers[j].text) then Matching(markers, text, pos, j + 1) else j
  }

  function Forward(text: seq<byte>, i: nat): (r: nat)
    requires i <= |text|
    ensures i <= r <= |text|
    decreases |text| - i
  {
    if i < |text| && Continuation(text[i]) then Forward(text, i + 1) else i
  }

  function Back(text: seq<byte>, low: nat, i: nat): (r: nat)
    requires low <= i <= |text|
    ensures low <= r <= i
    decreases i
  {
    if low < i < |text| && Continuation(text[i]) then Back(text, low, i - 1) else i
  }

  lemma {:induction false} ForwardIsFirst(text: seq<byte>, i: nat)
    requires i <= |text|
    ensures var r := Forward(text, i);
            Boundary(text, r) && forall k {:trigger Continuation(text[k])} :: i <= k < r ==> Continuation(text[k])
    decreases |text| - i
  {
    if i < |text| && Continuation(text[i]) { ForwardIsFirst(text, i + 1); }
  }

  lemma {:induction false} BackIsLast(text: seq<byte>, low: nat, i: nat)
    requires low <= i <= |text|
    ensures var r := Back(text, low, i);
            && (r > low ==> Boundary(text, r)) && (i == |text| ==> r == i)
            && forall k {:trigger Continuation(text[k])} :: r < k <= i && k < |text| ==> Continuation(text[k])
    decreases i
  {
    if low < i < |text| && Continuation(text[i]) { BackIsLast(text, low, i - 1); }
  }

  function Window(text: seq<byte>, start: nat, width: nat, reason: Reason): Span
    requires start <= |text|
  {
    var first := Forward(text, start);
    Span(first, Back(text, first, Limit(text, first, width)), reason)
  }

  predicate Good(text: seq<byte>, s: Span) {
    s.start <= s.end && Boundary(text, s.start) && Boundary(text, s.end)
  }

  predicate AllGood(text: seq<byte>, spans: seq<Span>) {
    forall i {:trigger Good(text, spans[i])} :: 0 <= i < |spans| ==> Good(text, spans[i])
  }

  function Limit(text: seq<byte>, first: nat, width: nat): (r: nat)
    requires first <= |text|
    ensures first <= r <= |text|
  {
    if width < |text| - first then first + width else |text|
  }

  lemma WindowIsGood(text: seq<byte>, start: nat, width: nat, reason: Reason)
    requires start <= |text|
    ensures var w := Window(text, start, width, reason);
            Good(text, w) && start <= w.start && w.end - w.start <= width
  {
    var first := Forward(text, start);
    ForwardIsFirst(text, start);
    BackIsLast(text, first, Limit(text, first, width));
  }

  /** A window takes in every boundary that its width allows. */
  lemma WindowReaches(text: seq<byte>, start: nat, width: nat, reason: Reason, q: nat)
    requires start <= |text| && Boundary(text, q) && start <= q
    ensures var w := Window(text, start, width, reason);
            w.start <= q && (q <= w.start + width ==> q <= w.end)
  {
    var first := Forward(text, start);
    ForwardIsFirst(text, start);
    BackIsLast(text, first, Limit(text, first, width));
  }

  lemma WindowsAscend(text: seq<byte>, a: nat, b: nat, width: nat, r: Reason, q: Reason)
    requires a <= b <= |text|
    ensures var v, w := Window(text, a, width, r), Window(text, b, width, q);
            v.start <= w.start && v.end <= w.end && (v.start == w.start ==> v.end == w.end)
  {
    var v, w := Window(text, a, width, r), Window(text, b, width, q);
    WindowIsGood(text, a, width, r);
    WindowIsGood(text, b, width, q);
    WindowReaches(text, a, width, r, w.start);
    if v.end > w.start {
      WindowReaches(text, b, width, q, v.end);
    }
  }

  function Centre(pos: nat, width: nat): nat {
    if pos > width / 4 then pos - width / 4 else 0
  }

  /** The window of the marker found at pos, if one is. */
  function Hit(markers: seq<Marker>, text: seq<byte>, width: nat, pos: nat): Option<Span>
    requires pos <= |text|
  {
    var j := Matching(markers, text, pos, 0);
    if j < |markers| then Some(Window(text, Centre(pos, width), width, markers[j].reason)) else None
  }

  function Hits(markers: seq<Marker>, text: seq<byte>, width: nat): (hits: seq<Option<Span>>)
    ensures |hits| == |text|
  {
    seq(|text|, p requires 0 <= p < |text| => Hit(markers, text, width, p))
  }

  /** A marker is found exactly where one of the table starts, and its window covers all of it. */
  lemma HitCovers(markers: seq<Marker>, text: seq<byte>, width: nat, pos: nat, j: nat)
    requires Utf8.Valid(text) && Usable(markers) && width >= 64
    requires j < |markers| && Starts(text, pos, markers[j].text)
    ensures var h := Hit(markers, text, width, pos);
            h.Some? && h.value.start <= pos && pos + |markers[j].text| <= h.value.end
  {
    var n := |markers[j].text|;
    var reason := markers[Matching(markers, text, pos, 0)].reason;
    assert text[pos] == text[pos..pos + n][0];
    assert text[pos + n - 1] == text[pos..pos + n][n - 1];
    FirstIsBoundary(text);
    AfterAscii(text, pos);
    AfterAscii(text, pos + n - 1);
    CentreCovers(text, width, pos, n, reason);
  }

  lemma CentreCovers(text: seq<byte>, width: nat, pos: nat, n: nat, reason: Reason)
    requires width >= 64 && 1 <= n <= MARKER_MAX && pos + n <= |text|
    requires Boundary(text, 0) && Boundary(text, pos) && Boundary(text, pos + n)
    ensures var w := Window(text, Centre(pos, width), width, reason); w.start <= pos && pos + n <= w.end
  {
    var c := Centre(pos, width);
    WindowReaches(text, c, width, reason, pos);
    WindowReaches(text, c, width, reason, pos + n);
    if c == 0 { WindowReaches(text, 0, width, reason, 0); }
  }

  predicate NotBefore(v: Span, w: Span) {
    v.start <= w.start && v.end <= w.end && (v.start == w.start ==> v.end == w.end)
  }

  /** The windows found are good, of bounded width, and ordered like their markers. */
  ghost predicate Orderly(text: seq<byte>, width: nat, hits: seq<Option<Span>>) {
    && (forall p :: 0 <= p < |hits| && hits[p].Some? ==>
                      Good(text, hits[p].value) && hits[p].value.end - hits[p].value.start <= width)
    && (forall p, q {:trigger NotBefore(hits[p].value, hits[q].value)} ::
          0 <= p < q < |hits| && hits[p].Some? && hits[q].Some? ==> NotBefore(hits[p].value, hits[q].value))
  }

  lemma HitsAreOrderly(markers: seq<Marker>, text: seq<byte>, width: nat)
    requires Usable(markers)
    ensures Orderly(text, width, Hits(markers, text, width))
  {
    var hits := Hits(markers, text, width);
    forall p | 0 <= p < |hits| && hits[p].Some?
      ensures Good(text, hits[p].value) && hits[p].value.end - hits[p].value.start <= width
    {
      WindowIsGood(text, Centre(p, width), width, markers[Matching(markers, text, p, 0)].reason);
    }
    forall p, q | 0 <= p < q < |hits| && hits[p].Some? && hits[q].Some?
      ensures NotBefore(hits[p].value, hits[q].value)
    {
      WindowsAscend(text, Centre(p, width), Centre(q, width), width,
                    markers[Matching(markers, text, p, 0)].reason, markers[Matching(markers, text, q, 0)].reason);
    }
  }

  // ---------------------------------------------------------------- candidates

  /** The windows found before upTo, leaving out each that the one before contains. */
  function Candidates(hits: seq<Option<Span>>, upTo: nat): seq<Span>
    requires upTo <= |hits|
  {
    if upTo == 0 then []
    else if hits[upTo - 1].None? then Candidates(hits, upTo - 1)
    else Extend(Candidates(hits, upTo - 1), hits[upTo - 1].value)
  }

  function Extend(c: seq<Span>, w: Span): seq<Span> {
    if c != [] && Within(w, c[|c| - 1]) then c else c + [w]
  }

  function Matches(hits: seq<Option<Span>>, upTo: nat): (n: nat)
    requires upTo <= |hits|
    ensures n <= upTo
  {
    if upTo == 0 then 0
    else Matches(hits, upTo - 1) + (if hits[upTo - 1].Some? then 1 else 0)
  }

  predicate Within(s: Span, t: Span) {
    s.start <= t.end && s.end <= t.end
  }

  predicate Ascending(spans: seq<Span>) {
    forall i, j {:trigger Before(spans[i], spans[j])} :: 0 <= i < j < |spans| ==> Before(spans[i], spans[j])
  }

  predicate Before(s: Span, t: Span) {
    s.start < t.start && s.end < t.end
  }

  predicate AtMost(spans: seq<Span>, width: nat) {
    forall i :: 0 <= i < |spans| ==> spans[i].end - spans[i].start <= width
  }

  ghost predicate Shaped(text: seq<byte>, width: nat, c: seq<Span>) {
    AllGood(text, c) && Ascending(c) && AtMost(c, width)
  }

  predicate Contains(s: Span, t: Span) {
    s.start <= t.start && t.end <= s.end
  }

  predicate IsFirst(hits: seq<Option<Span>>, p: nat) {
    p < |hits| && hits[p].Some? && forall q :: 0 <= q < p ==> hits[q].None?
  }

  predicate IsLast(hits: seq<Option<Span>>, p: nat) {
    p < |hits| && hits[p].Some? && forall q :: p < q < |hits| ==> hits[q].None?
  }

  /** The last candidate is some marker's window. */
  ghost predicate FromHit(hits: seq<Option<Span>>, upTo: nat, l: Span) {
    exists q :: 0 <= q < upTo <= |hits| && hits[q] == Some(l)
  }

  lemma {:induction false} CandidatesComeFromHits(hits: seq<Option<Span>>, upTo: nat)
    requires upTo <= |hits|
    ensures var c := Candidates(hits, upTo);
            (c == [] <==> Matches(hits, upTo) == 0) && (c != [] ==> FromHit(hits, upTo, c[|c| - 1]))
  {
    if upTo > 0 {
      CandidatesComeFromHits(hits, upTo - 1);
    }
  }

  lemma NextIsNotBefore(text: seq<byte>, width: nat, hits: seq<Option<Span>>, upTo: nat, l: Span)
    requires Orderly(text, width, hits) && FromHit(hits, upTo, l) && upTo < |hits| && hits[upTo].Some?
    ensures NotBefore(l, hits[upTo].value)
  {
    var q :| 0 <= q < upTo <= |hits| && hits[q] == Some(l);
    assert NotBefore(hits[q].value, hits[upTo].value);
  }

  lemma ShapedStep(text: seq<byte>, width: nat, c: seq<Span>, w: Span)
    requires Shaped(text, width, c) && Good(text, w) && w.end - w.start <= width
    requires c != [] ==> NotBefore(c[|c| - 1], w)
    ensures Shaped(text, width, Extend(c, w))
  {
    assert forall i :: 0 <= i < |c| - 1 ==> Before(c[i], c[|c| - 1]);
  }

  lemma {:induction false} CandidatesAscend(text: seq<byte>, width: nat, hits: seq<Option<Span>>, upTo: nat)
    requires Orderly(text, width, hits) && upTo <= |hits|
    ensures Shaped(text, width, Candidates(hits, upTo))
  {
    if upTo > 0 {
      var p := upTo - 1;
      CandidatesAscend(text, width, hits, p);
      if hits[p].Some? {
        var c := Candidates(hits, p);
        CandidatesComeFromHits(hits, p);
        if c != [] { NextIsNotBefore(text, width, hits, p, c[|c| - 1]); }
        ShapedStep(text, width, c, hits[p].value);
      }
    }
  }

  lemma {:induction false} FirstCandidate(hits: seq<Option<Span>>, upTo: nat, p: nat)
    requires IsFirst(hits, p) && p < upTo <= |hits|
    ensures var c := Candidates(hits, upTo); c != [] && c[0] == hits[p].value
  {
    if p < upTo - 1 {
      FirstCandidate(hits, upTo - 1, p);
    } else {
      EmptyBefore(hits, p);
    }
  }

  lemma {:induction false} EmptyBefore(hits: seq<Option<Span>>, upTo: nat)
    requires upTo <= |hits| && forall q :: 0 <= q < upTo ==> hits[q].None?
    ensures Candidates(hits, upTo) == []
  {
    if upTo > 0 { EmptyBefore(hits, upTo - 1); }
  }

  lemma {:induction false} LastCandidate(text: seq<byte>, width: nat, hits: seq<Option<Span>>, upTo: nat, p: nat)
    requires Orderly(text, width, hits) && IsLast(hits, p) && p < upTo <= |hits|
    ensures var c := Candidates(hits, upTo); c != [] && Contains(c[|c| - 1], hits[p].value)
    decreases upTo
  {
    if p < upTo - 1 {
      LastCandidate(text, width, hits, upTo - 1, p);
    } else {
      CandidatesComeFromHits(hits, p);
      var c := Candidates(hits, p);
      if c != [] { NextIsNotBefore(text, width, hits, p, c[|c| - 1]); }
    }
  }

  /** With only so many slots: the first candidate and the most recent ones. */
  function Kept(c: seq<Span>, slots: nat): seq<Span>
    requires slots >= 2
  {
    if |c| <= slots then c else [c[0]] + c[|c| - (slots - 1)..]
  }

  lemma KeptNext(c: seq<Span>, w: Span, slots: nat)
    requires slots >= 2
    ensures var k := Kept(c, slots);
            && |k| == (if |c| < slots then |c| else slots)
            && (c != [] ==> k != [] && k[0] == c[0] && k[|k| - 1] == c[|c| - 1])
            && Kept(c + [w], slots) == if |k| < slots then k + [w] else [k[0]] + k[2..] + [w]
  {
    var k := Kept(c, slots);
    if |c| > slots {
      assert k[2..] == c[|c| - (slots - 1)..][1..];
      assert c[|c| - (slots - 1)..][1..] == c[|c| - (slots - 2)..];
    }
  }

  lemma KeptIsSome(c: seq<Span>, slots: nat, text: seq<byte>, width: nat)
    requires slots >= 2 && Shaped(text, width, c)
    ensures var k := Kept(c, slots); Shaped(text, width, k) && |k| <= slots
  {
    var k := Kept(c, slots);
    if |c| > slots {
      assert forall i :: 1 <= i < |k| ==> k[i] == c[i + |c| - slots];
    }
  }

  // ---------------------------------------------------------------- merging

  function Merged(last: Span, s: Span): Span {
    Span(last.start, if s.end > last.end then s.end else last.end, Diagnostics)
  }

  function Merge(spans: seq<Span>): (m: seq<Span>)
    ensures |m| <= |spans| && (m == [] <==> spans == [])
  {
    if spans == [] then [] else Join(Merge(spans[..|spans| - 1]), spans[|spans| - 1])
  }

  /** A span that touches the last one widens it. */
  function Join(m: seq<Span>, s: Span): (t: seq<Span>)
    ensures t != [] && |t| <= |m| + 1
  {
    if m != [] && s.start <= m[|m| - 1].end then m[..|m| - 1] + [Merged(m[|m| - 1], s)] else m + [s]
  }

  lemma MergeNext(spans: seq<Span>, i: nat)
    requires i < |spans|
    ensures Merge(spans[..i + 1]) == Join(Merge(spans[..i]), spans[i])
  {
    assert spans[..i + 1][..i] == spans[..i];
  }

  predicate Apart(spans: seq<Span>) {
    forall i, j {:trigger Clear(spans[i], spans[j])} :: 0 <= i < j < |spans| ==> Clear(spans[i], spans[j])
  }

  predicate Clear(s: Span, t: Span) {
    s.end < t.start
  }

  predicate Inside(spans: seq<Span>, b: nat) {
    exists i :: 0 <= i < |spans| && Holds(spans[i], b)
  }

  predicate Holds(s: Span, b: nat) { s.start <= b < s.end }

  predicate Covered(spans: seq<Span>, s: Span) {
    exists i :: 0 <= i < |spans| && Contains(spans[i], s)
  }

  function Total(spans: seq<Span>): int {
    if spans == [] then 0 else Total(spans[..|spans| - 1]) + spans[|spans| - 1].end - spans[|spans| - 1].start
  }

  lemma AppendApart(m: seq<Span>, s: Span)
    requires Apart(m) && (m != [] ==> m[|m| - 1].start <= m[|m| - 1].end && Clear(m[|m| - 1], s))
    ensures Apart(m + [s])
  {
    var n := |m| - 1;
    forall i | 0 <= i < |m| ensures Clear(m[i], s) {
      if i < n { assert Clear(m[i], m[n]); }
    }
  }

  lemma TotalNext(m: seq<Span>, s: Span)
    ensures Total(m + [s]) == Total(m) + s.end - s.start
  {
    assert (m + [s])[..|m|] == m;
  }

  lemma MergeStep(text: seq<byte>, m: seq<Span>, s: Span)
    requires Apart(m) && AllGood(text, m) && Good(text, s)
    requires m != [] ==> m[|m| - 1].start <= s.start && m[|m| - 1].end < s.end
    ensures var t := Join(m, s); Apart(t) && AllGood(text, t) && EndsWith(t, s)
  {
    if m == [] {
    } else {
      var l, n := m[|m| - 1], |m| - 1;
      assert Good(text, l);
      if s.start <= l.end {
        assert forall i :: 0 <= i < n ==> Good(text, m[i]);
        if n > 0 { assert Good(text, m[n - 1]) && Clear(m[n - 1], l); }
        AppendApart(m[..n], Merged(l, s));
      } else {
        AppendApart(m, s);
      }
    }
  }

  lemma JoinTotal(m: seq<Span>, s: Span)
    requires m != [] ==> m[|m| - 1].start <= s.start && m[|m| - 1].end < s.end
    ensures Total(Join(m, s)) <= Total(m) + s.end - s.start
  {
    if m != [] && s.start <= m[|m| - 1].end {
      TotalNext(m[..|m| - 1], Merged(m[|m| - 1], s));
    } else {
      TotalNext(m, s);
    }
  }

  lemma MergeStepCovers(m: seq<Span>, s: Span, b: nat)
    requires m != [] && m[|m| - 1].start <= s.start
    ensures Inside(Join(m, s), b) <==> Inside(m, b) || Holds(s, b)
  {
    var l, n := m[|m| - 1], |m| - 1;
    if s.start <= l.end {
      var t := m[..n] + [Merged(l, s)];
      assert forall i :: 0 <= i < n ==> t[i] == m[i];
      if Inside(m, b) {
        var i :| 0 <= i < |m| && Holds(m[i], b);
        assert i < n ==> Holds(t[i], b);
        assert i == n ==> Holds(t[n], b);
      }
      if Holds(s, b) { assert Holds(t[n], b); }
    } else {
      var t := m + [s];
      assert forall i :: 0 <= i <= n ==> t[i] == m[i];
      if Inside(m, b) {
        var i :| 0 <= i < |m| && Holds(m[i], b);
        assert Holds(t[i], b);
      }
      if Holds(s, b) { assert Holds(t[n + 1], b); }
    }
  }

  lemma {:induction false} TotalAtMost(spans: seq<Span>, width: nat)
    requires AtMost(spans, width)
    ensures Total(spans) <= |spans| * width
  {
    if spans != [] {
      var n := |spans| - 1;
      TotalAtMost(spans[..n], width);
      assert (n + 1) * width == n * width + width;
    }
  }

  /** Merged spans are apart, on boundaries, no larger in total. */
  lemma ShapedPrefix(text: seq<byte>, spans: seq<Span>, width: nat)
    requires Shaped(text, width, spans) && spans != []
    ensures var n := |spans| - 1;
            && Shaped(text, width, spans[..n]) && Good(text, spans[n])
            && (n > 0 ==> spans[..n][n - 1] == spans[n - 1] && Before(spans[n - 1], spans[n]))
  {
  }

  /** m says the same as spans, apart and in no more bytes, and ends where they end. */
  ghost predicate Tidies(text: seq<byte>, m: seq<Span>, spans: seq<Span>) {
    && Apart(m) && AllGood(text, m) && Total(m) <= Total(spans) && |m| <= |spans|
    && (spans == [] <==> m == []) && (spans != [] ==> EndsWith(m, spans[|spans| - 1]))
  }

  ghost predicate EndsWith(m: seq<Span>, s: Span) {
    m != [] && m[|m| - 1].end == s.end && m[|m| - 1].start <= s.start
  }

  lemma JoinTidies(text: seq<byte>, spans: seq<Span>, width: nat, m: seq<Span>)
    requires Shaped(text, width, spans) && spans != [] && Tidies(text, m, spans[..|spans| - 1])
    ensures Tidies(text, Join(m, spans[|spans| - 1]), spans)
  {
    ShapedPrefix(text, spans, width);
    MergeStep(text, m, spans[|spans| - 1]);
    JoinTotal(m, spans[|spans| - 1]);
  }

  lemma {:induction false} MergeTidies(text: seq<byte>, spans: seq<Span>, width: nat)
    requires Shaped(text, width, spans)
    ensures Tidies(text, Merge(spans), spans)
  {
    if spans != [] {
      var n := |spans| - 1;
      ShapedPrefix(text, spans, width);
      MergeTidies(text, spans[..n], width);
      JoinTidies(text, spans, width, Merge(spans[..n]));
    }
  }

  /** Merging shows exactly the bytes that the spans show. */
  lemma {:induction false} MergeShowsTheSame(text: seq<byte>, spans: seq<Span>, width: nat, b: nat)
    requires Shaped(text, width, spans)
    ensures Inside(Merge(spans), b) <==> Inside(spans, b)
  {
    if spans != [] {
      var n := |spans| - 1;
      ShapedPrefix(text, spans, width);
      MergeTidies(text, spans[..n], width);
      MergeShowsTheSame(text, spans[..n], width, b);
      InsideLast(spans, b);
      var m := Merge(spans[..n]);
      if m != [] {
        MergeStepCovers(m, spans[n], b);
      } else {
        assert Merge(spans) == [spans[n]];
        assert Inside([spans[n]], b) <==> Holds([spans[n]][0], b);
      }
    }
  }

  lemma InsideLast(spans: seq<Span>, b: nat)
    requires spans != []
    ensures Inside(spans, b) <==> Inside(spans[..|spans| - 1], b) || Holds(spans[|spans| - 1], b)
  {
    var n := |spans| - 1;
    if Inside(spans[..n], b) {
      var i :| 0 <= i < n && Holds(spans[..n][i], b);
      assert Holds(spans[i], b);
    }
    if Inside(spans, b) {
      var i :| 0 <= i < |spans| && Holds(spans[i], b);
      assert i < n ==> Holds(spans[..n][i], b);
    }
  }

  lemma JoinKeepsCovered(m: seq<Span>, s: Span, t: Span)
    requires m != [] ==> m[|m| - 1].start <= s.start
    ensures Covered(m, t) ==> Covered(Join(m, s), t)
    ensures Covered(Join(m, s), s)
  {
    var all := Join(m, s);
    assert Contains(all[|all| - 1], s);
    if Covered(m, t) {
      var i :| 0 <= i < |m| && Contains(m[i], t);
      assert Contains(all[i], t);
    }
  }

  /** Every span is contained in one merged span. */
  lemma {:induction false} MergeCovers(text: seq<byte>, spans: seq<Span>, width: nat, k: nat)
    requires Shaped(text, width, spans) && k < |spans|
    ensures Covered(Merge(spans), spans[k])
  {
    var n := |spans| - 1;
    ShapedPrefix(text, spans, width);
    MergeTidies(text, spans[..n], width);
    JoinKeepsCovered(Merge(spans[..n]), spans[n], spans[k]);
    if k < n {
      MergeCovers(text, spans[..n], width, k);
      assert spans[..n][k] == spans[k];
    }
  }
}
