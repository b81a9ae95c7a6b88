/** Reading an excerpt back: from its bytes alone, how many markers the text has, and for each range that
  * is shown where it lies, why it is shown, and its bytes. */
module ExcerptReader {
  import opened Statuses
  import opened Utf8
  import opened Words
  import opened Basics
  import opened ExcerptWindows
  import opened Excerpt

  // ---------------------------------------------------------------- words and numbers

  predicate Digit(b: byte) { 48 <= b <= 57 }

  /** What follows a word. */
  function Strip(b: seq<byte>, word: seq<byte>): (r: Option<seq<byte>>)
    ensures r.Some? ==> |r.value| + |word| == |b|
  {
    if |word| <= |b| && b[..|word|] == word then Some(b[|word|..]) else None
  }

  lemma StripIs(word: seq<byte>, rest: seq<byte>)
    ensures Strip(word + rest, word) == Some(rest)
  {
    assert (word + rest)[..|word|] == word && (word + rest)[|word|..] == rest;
  }

  function Digits(b: seq<byte>): (n: nat)
    ensures n <= |b|
  {
    if b == [] || !Digit(b[0]) then 0 else 1 + Digits(b[1..])
  }

  function Value(digits: seq<byte>): int {
    if digits == [] then 0
    else
      var last: int := digits[|digits| - 1];
      10 * Value(digits[..|digits| - 1]) + last - 48
  }

  lemma {:induction false} DigitsAre(d: seq<byte>, rest: seq<byte>)
    requires forall i :: 0 <= i < |d| ==> Digit(d[i])
    requires rest != [] ==> !Digit(rest[0])
    ensures Digits(d + rest) == |d|
  {
    if d == [] {
      assert d + rest == rest;
    } else {
      assert (d + rest)[1..] == d[1..] + rest;
      DigitsAre(d[1..], rest);
    }
  }

  /** The number in front, and what follows its digits. */
  function Number(b: seq<byte>): (r: (int, seq<byte>))
    ensures |r.1| <= |b|
  {
    (Value(b[..Digits(b)]), b[Digits(b)..])
  }

  lemma {:induction false} ValueOf(n: nat)
    ensures Value(Decimal(n)) == n
  {
    if n >= 10 {
      ValueOf(n / 10);
      assert Decimal(n)[..|Decimal(n)| - 1] == Decimal(n / 10);
    } else {
      assert Decimal(n)[..0] == [];
    }
  }

  lemma NumberIs(n: nat, rest: seq<byte>)
    requires rest != [] ==> !Digit(rest[0])
    ensures Number(Decimal(n) + rest) == (n, rest)
  {
    DigitsAre(Decimal(n), rest);
    ValueOf(n);
    assert (Decimal(n) + rest)[..|Decimal(n)|] == Decimal(n) && (Decimal(n) + rest)[|Decimal(n)|..] == rest;
  }

  // ---------------------------------------------------------------- reasons

  /** The reason whose word is in front. */
  function ReasonOf(b: seq<byte>): Option<Reason> {
    if Starts(b, 0, Word(Compiler)) then Some(Compiler)
    else if Starts(b, 0, Word(Make)) then Some(Make)
    else if Starts(b, 0, Word(Traceback)) then Some(Traceback)
    else if Starts(b, 0, Word(Assertion)) then Some(Assertion)
    else if Starts(b, 0, Word(Test)) then Some(Test)
    else if Starts(b, 0, Word(Summary)) then Some(Summary)
    else if Starts(b, 0, Word(Head)) then Some(Head)
    else if Starts(b, 0, Word(Tail)) then Some(Tail)
    else if Starts(b, 0, Word(Diagnostics)) then Some(Diagnostics)
    else if Starts(b, 0, Word(Complete)) then Some(Complete)
    else None
  }

  /** The first two letters of a reason's word, as one number. */
  function Key(r: Reason): nat {
    match r
    case Compiler => 99111
    case Make => 98117
    case Traceback => 116114
    case Assertion => 97115
    case Test => 116101
    case Summary => 115117
    case Head => 104101
    case Tail => 116097
    case Diagnostics => 100105
    case Complete => 99111
  }

  lemma Letters(r: Reason)
    ensures |Word(r)| >= 2 && Key(r) == Word(r)[0] as int * 1000 + Word(r)[1]
    ensures r == Compiler ==> |Word(r)| >= 5 && Word(r)[4] == 105
    ensures r == Complete ==> |Word(r)| >= 5 && Word(r)[4] == 108
  {
  }

  lemma KeysDiffer(r: Reason, q: Reason)
    ensures Key(r) == Key(q) <==> r == q || {r, q} == {Compiler, Complete}
  {
  }

  lemma SameStart(a: seq<byte>, b: seq<byte>, k: nat, rest: seq<byte>)
    ensures Starts(a + rest, 0, b) && k < |a| && k < |b| ==> a[k] == b[k]
  {
    if Starts(a + rest, 0, b) && k < |a| && k < |b| { assert (a + rest)[0..|b|][k] == a[k]; }
  }

  /** No word begins another. */
  lemma WordsDiffer(r: Reason, q: Reason, rest: seq<byte>)
    ensures Starts(Word(r) + rest, 0, Word(q)) <==> r == q
  {
    var a, b := Word(r), Word(q);
    Letters(r);
    Letters(q);
    KeysDiffer(r, q);
    SameStart(a, b, 0, rest);
    SameStart(a, b, 1, rest);
    SameStart(a, b, 4, rest);
    if r == q { assert (a + rest)[0..|a|] == a; }
  }

  lemma ReasonIs(r: Reason, rest: seq<byte>)
    ensures ReasonOf(Word(r) + rest) == Some(r)
  {
    WordsDiffer(r, Compiler, rest);
    WordsDiffer(r, Make, rest);
    WordsDiffer(r, Traceback, rest);
    WordsDiffer(r, Assertion, rest);
    WordsDiffer(r, Test, rest);
    WordsDiffer(r, Summary, rest);
    WordsDiffer(r, Head, rest);
    WordsDiffer(r, Tail, rest);
    WordsDiffer(r, Diagnostics, rest);
    WordsDiffer(r, Complete, rest);
  }

  // ---------------------------------------------------------------- one range

  /** A range as the reader finds it. */
  datatype Part = Part(start: int, end: int, reason: Reason, bytes: seq<byte>)

  datatype Range = Range(start: int, end: int, rest: seq<byte>)

  datatype Piece = Piece(part: Part, rest: seq<byte>)

  /** A word after which a number ends. */
  predicate Stops(word: seq<byte>) { word != [] && !Digit(word[0]) }

  predicate Legible(w: Wording) {
    Stops(w.header.after) && Stops(w.to) && Stops(w.why)
  }

  /** Two numbers among their words. */
  function ReadRange(w: Wording, b: seq<byte>): (r: Option<Range>)
    ensures r.Some? ==> |r.value.rest| <= |b|
  {
    match Strip(b, w.span.before)
    case None => None
    case Some(b) =>
      var (start, b) := Number(b);
      match Strip(b, w.to)
      case None => None
      case Some(b) =>
        var (end, b) := Number(b);
        match Strip(b, w.why)
        case None => None
        case Some(b) => Some(Range(start, end, b))
  }

  /** So many bytes and a newline. */
  function ReadBytes(range: Range, reason: Reason, b: seq<byte>): (r: Option<Piece>)
    ensures r.Some? ==> |r.value.rest| < |b|
  {
    var n := range.end - range.start;
    if !(0 <= n <= |b|) then None
    else
      match Strip(b[n..], [10])
      case None => None
      case Some(rest) => Some(Piece(Part(range.start, range.end, reason, b[..n]), rest))
  }

  /** The reason's word, what ends the caption, then the bytes. */
  function ReadPiece(w: Wording, b: seq<byte>): (r: Option<Piece>)
    ensures r.Some? ==> |r.value.rest| < |b|
  {
    match ReadRange(w, b)
    case None => None
    case Some(range) =>
      match ReasonOf(range.rest)
      case None => None
      case Some(reason) =>
        match Strip(range.rest, Word(reason))
        case None => None
        case Some(b) =>
          match Strip(b, w.span.after)
          case None => None
          case Some(b) => ReadBytes(range, reason, b)
  }

  lemma NumberStops(n: nat, word: seq<byte>, rest: seq<byte>)
    requires Stops(word)
    ensures Number(Decimal(n) + (word + rest)) == (n, word + rest)
  {
    assert (word + rest)[0] == word[0];
    NumberIs(n, word + rest);
  }

  lemma RangeReads(w: Wording, start: nat, end: nat, rest: seq<byte>)
    requires Legible(w)
    ensures ReadRange(w, w.span.before + (Decimal(start) + (w.to + (Decimal(end) + (w.why + rest)))))
            == Some(Range(start, end, rest))
  {
    var b := Decimal(end) + (w.why + rest);
    StripIs(w.span.before, Decimal(start) + (w.to + b));
    NumberStops(start, w.to, b);
    StripIs(w.to, b);
    NumberStops(end, w.why, rest);
    StripIs(w.why, rest);
  }

  lemma BytesRead(range: Range, reason: Reason, bytes: seq<byte>, rest: seq<byte>)
    requires |bytes| == range.end - range.start
    ensures ReadBytes(range, reason, bytes + ([10] + rest))
            == Some(Piece(Part(range.start, range.end, reason, bytes), rest))
  {
    var b := bytes + ([10] + rest);
    assert b[..|bytes|] == bytes && b[|bytes|..] == [10] + rest;
    StripIs([10], rest);
  }

  lemma PieceReads(w: Wording, start: nat, end: nat, reason: Reason, bytes: seq<byte>, rest: seq<byte>, tail: seq<byte>,
                   b: seq<byte>)
    requires Legible(w) && |bytes| == end - start
    requires tail == Word(reason) + (w.span.after + (bytes + ([10] + rest)))
    requires b == w.span.before + (Decimal(start) + (w.to + (Decimal(end) + (w.why + tail))))
    ensures ReadPiece(w, b) == Some(Piece(Part(start, end, reason, bytes), rest))
  {
    RangeReads(w, start, end, tail);
    ReasonIs(reason, w.span.after + (bytes + ([10] + rest)));
    StripIs(Word(reason), w.span.after + (bytes + ([10] + rest)));
    StripIs(w.span.after, bytes + ([10] + rest));
    BytesRead(Range(start, end, tail), reason, bytes, rest);
  }

  lemma CaptionFlat(w: Wording, s: Span, rest: seq<byte>)
    ensures Caption(w, s) + rest
            == w.span.before + (Decimal(s.start) + (w.to + (Decimal(s.end) + (w.why + (Word(s.reason)
               + (w.span.after + rest))))))
  {
    var a, b, c, d := w.span.before, Decimal(s.start), w.to, Decimal(s.end);
    var e, f, g := w.why, Word(s.reason), w.span.after;
    Together(a + b + c + d + e + f, g, rest);
    Together(a + b + c + d + e, f, g + rest);
    Together(a + b + c + d, e, f + (g + rest));
    Together(a + b + c, d, e + (f + (g + rest)));
    Together(a + b, c, d + (e + (f + (g + rest))));
    Together(a, b, c + (d + (e + (f + (g + rest)))));
  }

  lemma BlockReads(w: Wording, text: seq<byte>, s: Span, rest: seq<byte>)
    requires Legible(w) && Good(text, s)
    ensures ReadPiece(w, Block(w, text, s) + rest)
            == Some(Piece(Part(s.start, s.end, s.reason, text[s.start..s.end]), rest))
  {
    var bytes := text[s.start..s.end];
    Together(Caption(w, s) + bytes, [10], rest);
    Together(Caption(w, s), bytes, [10] + rest);
    CaptionFlat(w, s, bytes + ([10] + rest));
    PieceReads(w, s.start, s.end, s.reason, bytes, rest, Word(s.reason) + (w.span.after + (bytes + ([10] + rest))),
               Block(w, text, s) + rest);
  }

  // ---------------------------------------------------------------- the excerpt

  datatype Reading = Reading(matches: int, parts: seq<Part>)

  function ReadParts(w: Wording, b: seq<byte>): Option<seq<Part>>
    decreases |b|
  {
    if b == [] then Some([])
    else
      match ReadPiece(w, b)
      case None => None
      case Some(piece) =>
        match ReadParts(w, piece.rest)
        case None => None
        case Some(parts) => Some([piece.part] + parts)
  }

  function Read(w: Wording, b: seq<byte>): Option<Reading> {
    match Strip(b, w.header.before)
    case None => None
    case Some(b) =>
      var (matches, b) := Number(b);
      match Strip(b, w.header.after)
      case None => None
      case Some(b) =>
        match ReadParts(w, b)
        case None => None
        case Some(parts) => Some(Reading(matches, parts))
  }

  /** The part is that span: where it lies, its reason, and its bytes. */
  ghost predicate Shows(part: Part, text: seq<byte>, s: Span) {
    && part.start == s.start && part.end == s.end && part.reason == s.reason
    && s.start <= s.end <= |text| && part.bytes == text[s.start..s.end]
  }

  ghost predicate ShowAll(parts: seq<Part>, text: seq<byte>, spans: seq<Span>) {
    |parts| == |spans| && forall i {:trigger parts[i]} :: 0 <= i < |parts| ==> Shows(parts[i], text, spans[i])
  }

  lemma ReadOne(w: Wording, text: seq<byte>, s: Span, rest: seq<byte>, ps: seq<Part>)
    returns (part: Part)
    requires Legible(w) && Good(text, s) && ReadParts(w, rest) == Some(ps)
    ensures Shows(part, text, s) && ReadParts(w, Block(w, text, s) + rest) == Some([part] + ps)
  {
    BlockReads(w, text, s, rest);
    part := Part(s.start, s.end, s.reason, text[s.start..s.end]);
  }

  lemma GoodFront(text: seq<byte>, spans: seq<Span>)
    requires AllGood(text, spans) && spans != []
    ensures AllGood(text, spans[..|spans| - 1]) && Good(text, spans[|spans| - 1])
  {
    var n := |spans| - 1;
    assert Good(text, spans[n]);
    forall i | 0 <= i < n ensures Good(text, spans[..n][i]) { assert Good(text, spans[i]); }
  }

  lemma BlocksLast(w: Wording, text: seq<byte>, spans: seq<Span>, front: seq<Span>, last: Span)
    requires AllGood(text, spans) && AllGood(text, front) && Good(text, last)
    requires spans != [] && front == spans[..|spans| - 1] && last == spans[|spans| - 1]
    ensures Blocks(w, text, spans) == Blocks(w, text, front) + Block(w, text, last)
  {
  }

  lemma BlocksSplit(w: Wording, text: seq<byte>, spans: seq<Span>, front: seq<Span>, last: Span, rest: seq<byte>)
    requires AllGood(text, spans) && AllGood(text, front) && Good(text, last)
    requires spans != [] && front == spans[..|spans| - 1] && last == spans[|spans| - 1]
    ensures Blocks(w, text, spans) + rest == Blocks(w, text, front) + (Block(w, text, last) + rest)
  {
    BlocksLast(w, text, spans, front, last);
    Together(Blocks(w, text, front), Block(w, text, last), rest);
  }

  lemma FrontAndLast(spans: seq<Span>) returns (front: seq<Span>, last: Span)
    requires spans != []
    ensures front == spans[..|spans| - 1] && last == spans[|spans| - 1] && spans == front + [last]
  {
    front, last := spans[..|spans| - 1], spans[|spans| - 1];
  }

  lemma LastSpan(w: Wording, text: seq<byte>, spans: seq<Span>, rest: seq<byte>)
    returns (front: seq<Span>, last: Span)
    requires AllGood(text, spans) && spans != []
    ensures spans == front + [last] && AllGood(text, front) && Good(text, last)
    ensures Blocks(w, text, spans) + rest == Blocks(w, text, front) + (Block(w, text, last) + rest)
  {
    GoodFront(text, spans);
    front, last := FrontAndLast(spans);
    BlocksSplit(w, text, spans, front, last, rest);
  }

  lemma OneMoreShown(parts: seq<Part>, part: Part, text: seq<byte>, spans: seq<Span>, s: Span)
    requires ShowAll(parts, text, spans) && Shows(part, text, s)
    ensures ShowAll(parts + [part], text, spans + [s])
  {
  }

  /** The spans' blocks read as the spans, whatever parts follow. */
  lemma {:induction false} BlocksRead(w: Wording, text: seq<byte>, spans: seq<Span>, rest: seq<byte>, ps: seq<Part>)
    returns (parts: seq<Part>)
    requires Legible(w) && AllGood(text, spans) && ReadParts(w, rest) == Some(ps)
    ensures ShowAll(parts, text, spans) && ReadParts(w, Blocks(w, text, spans) + rest) == Some(parts + ps)
    decreases |spans|
  {
    if spans == [] {
      parts := [];
      assert Blocks(w, text, spans) + rest == rest && [] + ps == ps;
    } else {
      var front, last := LastSpan(w, text, spans, rest);
      var part := ReadOne(w, text, last, rest, ps);
      var before := BlocksRead(w, text, front, Block(w, text, last) + rest, [part] + ps);
      Together(before, [part], ps);
      OneMoreShown(before, part, text, front, last);
      parts := before + [part];
    }
  }

  /** The bytes read as so many markers, and as the spans in their order. */
  ghost predicate ReadsAs(w: Wording, b: seq<byte>, matches: nat, text: seq<byte>, spans: seq<Span>) {
    Read(w, b).Some? && Read(w, b).value.matches == matches && ShowAll(Read(w, b).value.parts, text, spans)
  }

  lemma ComposedReads(w: Wording, text: seq<byte>, matches: nat, spans: seq<Span>)
    requires Legible(w) && AllGood(text, spans)
    ensures ReadsAs(w, Header(w, matches) + Blocks(w, text, spans), matches, text, spans)
  {
    var blocks := Blocks(w, text, spans);
    Together(w.header.before + Decimal(matches), w.header.after, blocks);
    Together(w.header.before, Decimal(matches), w.header.after + blocks);
    StripIs(w.header.before, Decimal(matches) + (w.header.after + blocks));
    NumberStops(matches, w.header.after, blocks);
    StripIs(w.header.after, blocks);
    var parts := BlocksRead(w, text, spans, [], []);
    assert blocks + [] == blocks && parts + [] == parts;
  }
}
