/** Building an excerpt in place, in a fixed array of spans. */
module ExcerptBuild {
  import opened Statuses
  import opened Utf8
  import opened Words
  import opened ExcerptWindows
  import opened Excerpt
  import opened ExcerptReader
  import opened ExcerptShown

  class Builder {
    const markers: seq<Marker>
    const wording: Wording
    const spans: array<Span>
    var count: nat
    var matches: nat
    var selectedBytes: int
    var text: Option<seq<byte>>

    ghost predicate Valid()
      reads this, spans
    {
      spans.Length == SPANS && count <= SPANS && Usable(markers) && Fitting(wording)
    }

    function Spans(): seq<Span>
      reads this, spans
      requires count <= spans.Length
    {
      spans[..count]
    }

    constructor (markers: seq<Marker>, wording: Wording)
      requires Usable(markers) && Fitting(wording)
      ensures Valid() && fresh(spans) && this.markers == markers && this.wording == wording
    {
      this.markers, this.wording := markers, wording;
      spans := new Span[SPANS](_ => Span(0, 0, Complete));
      count, matches, selectedBytes, text := 0, 0, 0, None;
    }

    method MakeWindow(text: seq<byte>, from: nat, width: nat, reason: Reason) returns (w: Span)
      requires from <= |text|
      ensures w == Window(text, from, width, reason)
    {
      var start := from;
      while start < |text| && Continuation(text[start])
        invariant from <= start <= |text|
        invariant Forward(text, start) == Forward(text, from)
      {
        start := start + 1;
      }
      var end: nat := if width < |text| - start then start + width else |text|;
      ghost var limit := end;
      while end > start && end < |text| && Continuation(text[end])
        invariant start <= end <= |text|
        invariant Back(text, start, end) == Back(text, start, limit)
      {
        end := end - 1;
      }
      return Span(start, end, reason);
    }

    method Recognise(text: seq<byte>, pos: nat) returns (j: nat)
      ensures j == Matching(markers, text, pos, 0)
    {
      j := 0;
      while j < |markers|
        invariant j <= |markers| && Matching(markers, text, pos, j) == Matching(markers, text, pos, 0)
      {
        if |markers[j].text| + pos <= |text| && text[pos..pos + |markers[j].text|] == markers[j].text { break; }
        j := j + 1;
      }
    }

    /** Keep the first diagnostic and the most recent ones, without duplicates. */
    method Keep(span: Span, slots: nat, ghost c: seq<Span>)
      requires Valid() && 2 <= slots <= SPANS && Spans() == Kept(c, slots)
      modifies this`count, spans
      ensures Valid() && Spans() == Kept(Extend(c, span), slots)
    {
      KeptNext(c, span, slots);
      if count > 0 && span.start <= spans[count - 1].end && span.end <= spans[count - 1].end {
        return;
      }
      if count == slots { DropSecond(); }
      Append(span);
    }

    /** Make room: the first diagnostic stays, the oldest of the others goes. */
    method DropSecond()
      requires 2 <= count <= spans.Length
      modifies this`count, spans
      ensures count == old(count) - 1 && Spans() == [old(Spans())[0]] + old(Spans())[2..]
    {
      forall i | 1 <= i < count - 1 {
        spans[i] := spans[i + 1];
      }
      count := count - 1;
    }

    method Append(span: Span)
      requires count < spans.Length
      modifies this`count, spans
      ensures count == old(count) + 1 && Spans() == old(Spans()) + [span]
    {
      spans[count] := span;
      count := count + 1;
    }

    method Visit(text: seq<byte>, pos: nat, slots: nat, width: nat, ghost hits: seq<Option<Span>>)
      requires Valid() && 2 <= slots <= SPANS && pos < |text| == |hits| && hits[pos] == Hit(markers, text, width, pos)
      requires Spans() == Kept(Candidates(hits, pos), slots) && matches == Matches(hits, pos)
      modifies this`count, this`matches, spans
      ensures Valid()
      ensures Spans() == Kept(Candidates(hits, pos + 1), slots) && matches == Matches(hits, pos + 1)
    {
      var j := Recognise(text, pos);
      if j < |markers| {
        matches := matches + 1;
        var span := MakeWindow(text, if pos > width / 4 then pos - width / 4 else 0, width, markers[j].reason);
        Keep(span, slots, Candidates(hits, pos));
      }
    }

    method Scan(text: seq<byte>, slots: nat, width: nat)
      requires Valid() && 2 <= slots <= SPANS && count == 0 && matches == 0
      modifies this`count, this`matches, spans
      ensures Valid()
      ensures var hits := Hits(markers, text, width);
              Spans() == Kept(Candidates(hits, |text|), slots) && matches == Matches(hits, |text|)
    {
      ghost var hits := Hits(markers, text, width);
      for pos := 0 to |text|
        invariant Valid() && Spans() == Kept(Candidates(hits, pos), slots) && matches == Matches(hits, pos)
      {
        Visit(text, pos, slots, width, hits);
      }
    }

    /** One step of the merge: the next span widens the last merged one or comes after it. */
    method Fold(merged: nat, span: Span) returns (n: nat)
      requires merged < count <= spans.Length
      modifies spans
      ensures n <= merged + 1 && spans[..n] == Join(old(spans[..merged]), span)
      ensures forall k :: merged < k < count ==> spans[k] == old(spans[k])
    {
      ghost var m := spans[..merged];
      n := merged;
      if merged > 0 && span.start <= spans[merged - 1].end {
        var last := spans[merged - 1];
        spans[merged - 1] := Span(last.start, if span.end > last.end then span.end else last.end, Diagnostics);
        assert spans[..merged] == m[..merged - 1] + [Merged(last, span)];
      } else {
        spans[merged] := span;
        n := merged + 1;
        assert spans[..n] == m + [span];
      }
    }

    /** Merge in place the spans sorted by start. */
    method MergeInPlace()
      requires Valid()
      modifies this`count, spans
      ensures Valid() && Spans() == Merge(old(Spans()))
    {
      ghost var was := Spans();
      var merged: nat := 0;
      for i := 0 to count
        invariant count == |was| <= spans.Length && merged <= i && spans[..merged] == Merge(was[..i])
        invariant forall k :: i <= k < count ==> spans[k] == was[k]
      {
        MergeNext(was, i);
        merged := Fold(merged, spans[i]);
      }
      assert was[..count] == was;
      count := merged;
    }

    /** Captions and bytes of the spans, one after another. */
    method Render(text: seq<byte>, shown: seq<Span>) returns (b: seq<byte>)
      requires AllGood(text, shown) && selectedBytes == 0
      modifies this`selectedBytes
      ensures b == Blocks(wording, text, shown) && selectedBytes == Total(shown)
    {
      b := [];
      for i := 0 to |shown|
        invariant b == Blocks(wording, text, shown[..i]) && selectedBytes == Total(shown[..i])
      {
        assert Good(text, shown[i]);
        BlocksNext(wording, text, shown, i);
        b := RenderOne(text, shown[i], b);
      }
      assert shown[..|shown|] == shown;
    }

    method RenderOne(text: seq<byte>, span: Span, b: seq<byte>) returns (r: seq<byte>)
      requires Good(text, span)
      modifies this`selectedBytes
      ensures r == b + Block(wording, text, span) && selectedBytes == old(selectedBytes) + span.end - span.start
    {
      var block := ShowSpan(text, span);
      r := b + block;
      selectedBytes := selectedBytes + span.end - span.start;
    }

    method ShowSpan(text: seq<byte>, span: Span) returns (b: seq<byte>)
      requires Good(text, span)
      ensures b == Block(wording, text, span)
    {
      b := Caption(wording, span);
      b := b + text[span.start..span.end];
      b := b + [10];
    }

    /** Unknown formats still retain the end of the output. */
    method SelectRest(text: seq<byte>, budget: nat)
      requires Valid() && BUDGET_MIN <= budget <= BUDGET_MAX && budget < |text|
      modifies this`count, spans
      ensures Valid()
      ensures Spans() == if old(count) == 0 then Ends(text, Room(budget, 2)) else old(Spans())
    {
      if count == 0 {
        var width := (budget - 256) / 2 - 64;
        spans[0] := MakeWindow(text, 0, width, Head);
        spans[1] := MakeWindow(text, |text| - width, width, Tail);
        count := 2;
        assert spans[..2] == [spans[0], spans[1]];
      }
    }

    /** The selected spans strictly ascend, so that sorting them leaves them as they are. */
    method Choose(text: seq<byte>, budget: nat)
      requires Valid() && BUDGET_MIN <= budget <= BUDGET_MAX && budget < |text| && Boundary(text, 0)
      requires Scanned(text, budget)
      modifies this`count, spans
      ensures Valid() && Spans() == Shown(markers, text, budget)
    {
      SelectRest(text, budget);
      ghost var selected := Selected(markers, text, budget);
      assert Spans() == selected;
      SelectedIsShaped(markers, text, budget, Wide(markers, text, budget));
      assert Ascending(Spans());
      MergeInPlace();
      assert Spans() == Merge(selected);
    }

    /** The excerpt of the spans shown. The final test of the length fails when it does not fit. */
    method Compose(text: seq<byte>, budget: nat, shown: seq<Span>, ghost view: seq<byte>) returns (e: Status)
      requires AllGood(text, shown) && selectedBytes == 0
      requires view == Header(wording, matches) + Blocks(wording, text, shown)
      modifies this`selectedBytes, this`text
      ensures e == (if |view| > budget then LIMIT else OK) && selectedBytes == Total(shown)
      ensures this.text == if e == OK then Some(view) else old(this.text)
    {
      var b := Header(wording, matches);
      var blocks := Render(text, shown);
      b := b + blocks;
      e := Publish(b, budget);
    }

    method Publish(b: seq<byte>, budget: nat) returns (e: Status)
      modifies this`text
      ensures e == if |b| > budget then LIMIT else OK
      ensures this.text == if e == OK then Some(b) else old(this.text)
    {
      if |b| > budget { return LIMIT; }
      this.text := Some(b);
      return OK;
    }

    ghost predicate Scanned(text: seq<byte>, budget: nat)
      reads this, spans
      requires Valid() && BUDGET_MIN <= budget <= BUDGET_MAX
    {
      var hits := Hits(markers, text, Room(budget, Slots(budget)));
      Spans() == Kept(Candidates(hits, |text|), Slots(budget)) && matches == Matches(hits, |text|)
    }

    /** An excerpt for every text that is text, within every budget allowed: the text itself
      * when it fits, else the diagnostic windows or the two ends. It is never refused for its size. */
    method Build(text: seq<byte>, budget: nat) returns (e: Status)
      requires Valid() && |text| <= SIZE_MAX
      modifies this`count, this`matches, this`selectedBytes, this`text, spans
      ensures Valid()
      ensures e == if budget < 512 || budget > 65536 || 0 in text || !Utf8.Valid(text) then INVALID else OK
      ensures e == INVALID ==> this.text == None && count == 0
      ensures e == OK && |text| <= budget ==>
                this.text == Some(text) && Spans() == [Span(0, |text|, Complete)] && selectedBytes == |text|
      ensures e == OK && |text| > budget ==>
                Boundary(text, 0)
                && this.text == Some(View(wording, markers, text, budget)) && |this.text.value| <= budget
                && Spans() == Shown(markers, text, budget) && selectedBytes == Total(Spans())
      ensures e == OK && |text| > budget ==>
                && HoldsMarks(markers, text, budget, this.text.value)
                && (Legible(wording) ==>
                      ReadsAs(wording, this.text.value, |Marks(markers, text, |text|)|, text, Spans()))
    {
      count, matches, selectedBytes, this.text := 0, 0, 0, None;
      if budget < BUDGET_MIN || budget > BUDGET_MAX || 0 in text || !Utf8.Valid(text) { return INVALID; }
      FirstIsBoundary(text);
      var slots, width := Divide(budget);
      Scan(text, slots, width);
      if |text| <= budget {
        spans[0] := Span(0, |text|, Complete);
        count, selectedBytes, this.text := 1, |text|, Some(text);
        assert spans[..1] == [spans[0]];
        return OK;
      }
      ghost var view := View(wording, markers, text, budget);
      ComposedFits(wording, markers, text, budget, matches);
      ViewShows(wording, markers, text, budget);
      Choose(text, budget);
      e := Compose(text, budget, Spans(), view);
    }

    method Divide(budget: nat) returns (slots: nat, width: nat)
      requires BUDGET_MIN <= budget <= BUDGET_MAX
      ensures slots == Slots(budget) && width == Room(budget, slots)
    {
      slots := (budget - 256) / 128;
      // A budget within the limits never gives fewer than two slots.
      assert slots >= 2;
      if slots > SPANS { slots := SPANS; }
      RoomIsLarge(budget - 256, slots);
      width := (budget - 256) / slots - 64;
    }
  }

  /** An excerpt reads back as the number of markers in the text and the spans shown, byte for byte; and
    * it holds the first marker and the most recent ones. */
  lemma ViewShows(w: Wording, markers: seq<Marker>, text: seq<byte>, budget: nat)
    requires BUDGET_MIN <= budget <= BUDGET_MAX && budget < |text|
    requires Utf8.Valid(text) && Boundary(text, 0) && Usable(markers) && Fitting(w)
    ensures HoldsMarks(markers, text, budget, View(w, markers, text, budget))
    ensures Legible(w) ==>
              ReadsAs(w, View(w, markers, text, budget), |Marks(markers, text, |text|)|, text,
                      Shown(markers, text, budget))
  {
    var width := Room(budget, Slots(budget));
    var matches := Matches(Hits(markers, text, width), |text|);
    MatchesAreMarks(markers, text, width, |text|);
    ViewHoldsMarks(w, markers, text, budget, Header(w, matches), View(w, markers, text, budget));
    if Legible(w) { ComposedReads(w, text, matches, Shown(markers, text, budget)); }
  }

  // ---------------------------------------------------------------- the tables

  function DiagnosticMarkers(): seq<Marker> {
    [Marker(Ascii(": error:"), Compiler), Marker(Ascii(": fatal error:"), Compiler),
     Marker(Ascii("error[E"), Compiler), Marker(Ascii(" error C"), Compiler),
     Marker(Ascii("CMake Error"), Make), Marker(Ascii("FAILED:"), Make),
     Marker(Ascii("Traceback (most recent call last):"), Traceback),
     Marker(Ascii("AssertionError"), Assertion), Marker(Ascii("FAILED "), Test),
     Marker(Ascii("FAIL: "), Test), Marker(Ascii("***Failed"), Test),
     Marker(Ascii("ERROR collecting "), Test), Marker(Ascii("test result: FAILED"), Test),
     Marker(Ascii("tests failed"), Summary)]
  }

  function EnglishWording(): Wording {
    Wording(Around(Ascii("[extractive view: "),
                   Ascii(" diagnostic markers; " + "other bytes omitted; not a verification result]\n")),
            Around(Ascii("\n[bytes "), Ascii("]\n")), Ascii("-"), Ascii("; "))
  }

  /** The markers and the wording in use are within what the arithmetic allows for, and can be read back. */
  lemma TablesFit()
    ensures Usable(DiagnosticMarkers()) && Fitting(EnglishWording()) && Legible(EnglishWording())
  {
    WordingFits(EnglishWording());
  }

  lemma WordingFits(w: Wording)
    requires w == EnglishWording()
    ensures Fitting(w) && Legible(w)
  {
    assert w.header.after[0] == 32 && w.to[0] == 45 && w.why[0] == 59;
  }
}
