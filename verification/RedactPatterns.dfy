/** The structural patterns of the secret scanner and what they match at a position. */
module RedactPatterns {
  import opened Statuses
  import opened Utf8
  import opened Words

  datatype Class = UpperDigit | AlNum | Base64Url | AuthChar | Entropy | ValueChar | Blank

  predicate Upper(b: byte) { 65 <= b <= 90 }
  predicate Lower(b: byte) { 97 <= b <= 122 }
  predicate Digit(b: byte) { 48 <= b <= 57 }

  predicate AlphaNumeric(b: byte) { Upper(b) || Lower(b) || Digit(b) }

  predicate In(c: Class, b: byte) {
    match c
    case UpperDigit => Upper(b) || Digit(b)
    case AlNum => AlphaNumeric(b)
    case Base64Url => AlphaNumeric(b) || b == 95 || b == 45
    case AuthChar => AlphaNumeric(b) || b in {46, 95, 126, 43, 47, 61, 45}
    case Entropy => AlphaNumeric(b) || b in {43, 47, 61, 95, 45}
    case ValueChar => b > 32 && b != 34 && b != 39
    case Blank => b == 32 || b == 9
  }

  /** All classes but the one of values hold ASCII only; what ends a value is ASCII. */
  lemma ClassesAreAscii(c: Class, b: byte)
    ensures In(c, b) && c != ValueChar ==> b < 128
    ensures c == ValueChar && !In(c, b) ==> b < 128
  {
  }

  function Folded(b: byte): byte {
    if Upper(b) then b + 32 else b
  }

  predicate StartsFolded(text: seq<byte>, i: nat, word: seq<byte>) {
    i + |word| <= |text| && forall k :: 0 <= k < |word| ==> Folded(text[i + k]) == word[k]
  }

  /** Where the run of bytes of a class that begins at i ends. */
  function RunEnd(text: seq<byte>, i: nat, c: Class): (r: nat)
    requires i <= |text|
    ensures i <= r <= |text|
    decreases |text| - i
  {
    if i < |text| && In(c, text[i]) then RunEnd(text, i + 1, c) else i
  }

  lemma {:induction false} RunIsMaximal(text: seq<byte>, i: nat, c: Class)
    requires i <= |text|
    ensures var r := RunEnd(text, i, c);
            && (r < |text| ==> !In(c, text[r]))
            && forall k {:trigger In(c, text[k])} :: i <= k < r ==> In(c, text[k])
    decreases |text| - i
  {
    if i < |text| && In(c, text[i]) { RunIsMaximal(text, i + 1, c); }
  }

  /** A run is the only stretch from i that is all of the class and cannot be extended. */
  lemma {:induction false} RunIsUnique(text: seq<byte>, i: nat, c: Class, r: nat)
    requires i <= r <= |text| && (r < |text| ==> !In(c, text[r]))
    requires forall k {:trigger In(c, text[k])} :: i <= k < r ==> In(c, text[k])
    ensures RunEnd(text, i, c) == r
    decreases r - i
  {
    if i < r { assert In(c, text[i]); RunIsUnique(text, i + 1, c, r); }
  }

  // ---------------------------------------------------------------- patterns

  datatype Pattern =
    | Exact(prefix: seq<byte>, count: nat, class_: Class)
    | AtLeast(prefixes: seq<seq<byte>>, minimum: nat, class_: Class)
    | Block(begin: seq<byte>, names: seq<seq<byte>>, tail: seq<byte>, end: seq<byte>)
    | Header(name: seq<byte>, schemes: seq<seq<byte>>, minimum: nat)
    | Pair(keys: seq<seq<byte>>, minimum: nat)

  /** The bytes consumed at a position, and which of them are masked. */
  datatype Match = Match(total: nat, offset: nat, length: nat)

  predicate Word(w: seq<byte>) { w != [] && IsAscii(w) }

  predicate AllWords(ws: seq<seq<byte>>) {
    forall k {:trigger Word(ws[k])} :: 0 <= k < |ws| ==> Word(ws[k])
  }

  predicate Usable(p: Pattern) {
    match p
    case Exact(prefix, _, class_) => Word(prefix) && class_ != ValueChar
    case AtLeast(prefixes, _, class_) => AllWords(prefixes) && class_ != ValueChar
    case Block(begin, names, tail, end) =>
      Word(begin) && Word(tail) && Word(end) && forall k :: 0 <= k < |names| ==> IsAscii(names[k])
    case Header(name, schemes, minimum) => Word(name) && AllWords(schemes) && minimum > 0
    case Pair(keys, minimum) => AllWords(keys) && minimum > 0
  }

  /** The first of the words from k on that starts at i, or their number. */
  function FirstWord(text: seq<byte>, i: nat, words: seq<seq<byte>>, k: nat): (r: nat)
    requires k <= |words|
    ensures k <= r <= |words| && (r < |words| ==> Starts(text, i, words[r]))
    decreases |words| - k
  {
    if k < |words| && !Starts(text, i, words[k]) then FirstWord(text, i, words, k + 1) else k
  }

  function FirstFolded(text: seq<byte>, i: nat, words: seq<seq<byte>>, k: nat): (r: nat)
    requires k <= |words|
    ensures k <= r <= |words| && (r < |words| ==> StartsFolded(text, i, words[r]))
    decreases |words| - k
  {
    if k < |words| && !StartsFolded(text, i, words[k]) then FirstFolded(text, i, words, k + 1) else k
  }

  function FirstName(text: seq<byte>, i: nat, names: seq<seq<byte>>, tail: seq<byte>, k: nat): (r: nat)
    requires k <= |names|
    ensures k <= r <= |names| && (r < |names| ==> Starts(text, i, names[r] + tail))
    decreases |names| - k
  {
    if k < |names| && !Starts(text, i, names[k] + tail) then FirstName(text, i, names, tail, k + 1) else k
  }

  /** Where the needle next occurs, or None. */
  function Find(text: seq<byte>, from: nat, needle: seq<byte>): (r: Option<nat>)
    ensures r.Some? ==> from <= r.value && Starts(text, r.value, needle)
    decreases |text| - from
  {
    if from + |needle| > |text| then None
    else if Starts(text, from, needle) then Some(from)
    else if from < |text| then Find(text, from + 1, needle) else None
  }

  function MatchExact(text: seq<byte>, i: nat, prefix: seq<byte>, count: nat, c: Class): Option<Match> {
    if Starts(text, i, prefix) && RunEnd(text, i + |prefix|, c) == i + |prefix| + count
    then Some(Match(|prefix| + count, 0, |prefix| + count))
    else None
  }

  function MatchAtLeast(text: seq<byte>, i: nat, prefixes: seq<seq<byte>>, minimum: nat, c: Class): Option<Match> {
    var k := FirstWord(text, i, prefixes, 0);
    if k == |prefixes| then None
    else
      var end := RunEnd(text, i + |prefixes[k]|, c);
      if end - i - |prefixes[k]| < minimum then None else Some(Match(end - i, 0, end - i))
  }

  function MatchBlock(text: seq<byte>, i: nat, begin: seq<byte>, names: seq<seq<byte>>, tail: seq<byte>,
                      end: seq<byte>): Option<Match> {
    if !Starts(text, i, begin) then None
    else
      var k := FirstName(text, i + |begin|, names, tail, 0);
      if k == |names| then None
      else
        Some(BlockTo(text, i, i + |begin| + |names[k]| + |tail|, end + names[k] + tail))
  }

  /** Up to the end line, or to the end of the text when there is none. */
  function BlockTo(text: seq<byte>, i: nat, from: nat, needle: seq<byte>): Match
    requires i <= from <= |text|
  {
    var found := Find(text, from, needle);
    var total := if found.Some? then found.value + |needle| - i else |text| - i;
    Match(total, 0, total)
  }

  function MatchHeader(text: seq<byte>, i: nat, name: seq<byte>, schemes: seq<seq<byte>>, minimum: nat): Option<Match> {
    if !StartsFolded(text, i, name) then None
    else
      var j := RunEnd(text, i + |name|, Blank);
      var k := FirstFolded(text, j, schemes, 0);
      if k == |schemes| then None
      else
        var blank := j + |schemes[k]|;
        var token := RunEnd(text, blank, Blank);
        var end := RunEnd(text, token, AuthChar);
        if token == blank || end - token < minimum then None
        else Some(Match(end - i, token - i, end - token))
  }

  /** One key and its value: blanks may surround the sign, and a quote may open the value. */
  function MatchKey(text: seq<byte>, i: nat, key: seq<byte>, minimum: nat): Option<Match> {
    if !StartsFolded(text, i, key) then None
    else
      var sign := RunEnd(text, i + |key|, Blank);
      if sign == |text| || (text[sign] != 61 && text[sign] != 58) then None
      else
        var quote := RunEnd(text, sign + 1, Blank);
        var value := if quote < |text| && (text[quote] == 34 || text[quote] == 39) then quote + 1 else quote;
        var end := RunEnd(text, value, ValueChar);
        if end - value < minimum then None else Some(Match(end - i, value - i, end - value))
  }

  /** The longer of two matches, the first on a tie. */
  function Longer(a: Option<Match>, b: Option<Match>): Option<Match> {
    if b.Some? && (a.None? || b.value.total > a.value.total) then b else a
  }

  function MatchKeys(text: seq<byte>, i: nat, keys: seq<seq<byte>>, minimum: nat, n: nat): Option<Match>
    requires n <= |keys|
  {
    if n == 0 then None
    else Longer(MatchKeys(text, i, keys, minimum, n - 1), MatchKey(text, i, keys[n - 1], minimum))
  }

  function MatchPair(text: seq<byte>, i: nat, keys: seq<seq<byte>>, minimum: nat): Option<Match>
    requires i <= |text|
  {
    if i > 0 && AlphaNumeric(text[i - 1]) then None else MatchKeys(text, i, keys, minimum, |keys|)
  }

  function MatchAt(p: Pattern, text: seq<byte>, i: nat): Option<Match>
    requires i <= |text|
  {
    match p
    case Exact(prefix, count, c) => MatchExact(text, i, prefix, count, c)
    case AtLeast(prefixes, minimum, c) => MatchAtLeast(text, i, prefixes, minimum, c)
    case Block(begin, names, tail, end) => MatchBlock(text, i, begin, names, tail, end)
    case Header(name, schemes, minimum) => MatchHeader(text, i, name, schemes, minimum)
    case Pair(keys, minimum) => MatchPair(text, i, keys, minimum)
  }

  /** The longest match of the first n patterns, the earlier pattern on a tie. */
  function Best(ps: seq<Pattern>, text: seq<byte>, i: nat, n: nat): Option<Match>
    requires i <= |text| && n <= |ps|
  {
    if n == 0 then None else Longer(Best(ps, text, i, n - 1), MatchAt(ps[n - 1], text, i))
  }

  function Structural(ps: seq<Pattern>, text: seq<byte>, i: nat): Option<Match>
    requires i <= |text|
  {
    Best(ps, text, i, |ps|)
  }

  ghost predicate AllUsable(ps: seq<Pattern>) {
    forall k {:trigger Usable(ps[k])} :: 0 <= k < |ps| ==> Usable(ps[k])
  }

  ghost predicate IsChosen(ps: seq<Pattern>, text: seq<byte>, i: nat, c: nat, b: Option<Match>)
    requires i <= |text|
  {
    && c < |ps| && MatchAt(ps[c], text, i) == b && b.Some?
    && forall k {:trigger MatchAt(ps[k], text, i)} :: 0 <= k < c && MatchAt(ps[k], text, i).Some? ==>
         MatchAt(ps[k], text, i).value.total < b.value.total
  }

  /** The longest of what patterns matched, the earlier on a tie. */
  function LongestOf(ms: seq<Option<Match>>): Option<Match> {
    if ms == [] then None else Longer(LongestOf(ms[..|ms| - 1]), ms[|ms| - 1])
  }

  ghost predicate IsFirstLongest(ms: seq<Option<Match>>, c: nat, b: Option<Match>) {
    && c < |ms| && ms[c] == b && b.Some?
    && forall k {:trigger ms[k]} :: 0 <= k < c && ms[k].Some? ==> ms[k].value.total < b.value.total
  }

  lemma {:induction false} LongestIsFirst(ms: seq<Option<Match>>)
    ensures var b := LongestOf(ms);
            && (b.None? <==> forall k {:trigger ms[k]} :: 0 <= k < |ms| ==> ms[k].None?)
            && (forall k {:trigger ms[k]} ::
                  0 <= k < |ms| && ms[k].Some? ==> b.Some? && ms[k].value.total <= b.value.total)
            && (b.Some? ==> exists c :: 0 <= c < |ms| && IsFirstLongest(ms, c, b))
  {
    if ms != [] {
      var front, last := ms[..|ms| - 1], ms[|ms| - 1];
      LongestIsFirst(front);
      var a, b := LongestOf(front), LongestOf(ms);
      if b.Some? && b == a {
        var c :| 0 <= c < |front| && IsFirstLongest(front, c, a);
        assert IsFirstLongest(ms, c, b);
      } else if b.Some? {
        assert IsFirstLongest(ms, |front|, b);
      }
    }
  }

  /** What the first n patterns match at a position. */
  ghost predicate AreMatches(ps: seq<Pattern>, text: seq<byte>, i: nat, n: nat, ms: seq<Option<Match>>)
    requires i <= |text| && n <= |ps|
  {
    |ms| == n && forall k {:trigger ms[k]} :: 0 <= k < n ==> ms[k] == MatchAt(ps[k], text, i)
  }

  lemma {:induction false} BestIsFirst(ps: seq<Pattern>, text: seq<byte>, i: nat, n: nat, ms: seq<Option<Match>>)
    requires i <= |text| && n <= |ps| && AreMatches(ps, text, i, n, ms)
    ensures Best(ps, text, i, n) == LongestOf(ms)
  {
    if n > 0 { BestIsFirst(ps, text, i, n - 1, ms[..n - 1]); }
  }

  /** The pattern chosen at a position: none is longer, none before it is as long. */
  lemma BestIsLongest(ps: seq<Pattern>, text: seq<byte>, i: nat, n: nat)
    requires i <= |text| && n <= |ps|
    ensures var b := Best(ps, text, i, n);
            && (b.None?
                <==> forall k {:trigger MatchAt(ps[k], text, i)} :: 0 <= k < n ==> MatchAt(ps[k], text, i).None?)
            && (forall k {:trigger MatchAt(ps[k], text, i)} :: 0 <= k < n && MatchAt(ps[k], text, i).Some? ==>
                  MatchAt(ps[k], text, i).value.total <= b.value.total)
            && (b.Some? ==> exists c :: 0 <= c < n && IsChosen(ps, text, i, c, b))
  {
    var ms := seq(n, k requires 0 <= k < n => MatchAt(ps[k], text, i));
    BestIsFirst(ps, text, i, n, ms);
    LongestIsFirst(ms);
    assert forall k {:trigger MatchAt(ps[k], text, i)} :: 0 <= k < n ==> ms[k] == MatchAt(ps[k], text, i);
    var b := LongestOf(ms);
    if b.Some? {
      var c :| 0 <= c < |ms| && IsFirstLongest(ms, c, b);
      assert IsChosen(ps, text, i, c, b);
    }
  }

  // ---------------------------------------------------------------- what a match masks

  /** A match takes at least one byte and masks at least one byte of what it takes. */
  ghost predicate Inside(text: seq<byte>, i: nat, m: Match) {
    && 0 < m.total && 0 < m.length && m.offset + m.length <= m.total && i + m.total <= |text|
  }

  lemma BlockIsInside(text: seq<byte>, i: nat, begin: seq<byte>, names: seq<seq<byte>>, tail: seq<byte>, end: seq<byte>)
    requires Word(begin)
    ensures var m := MatchBlock(text, i, begin, names, tail, end); m.Some? ==> Inside(text, i, m.value)
  {
  }

  lemma HeaderIsInside(text: seq<byte>, i: nat, name: seq<byte>, schemes: seq<seq<byte>>, minimum: nat)
    requires minimum > 0
    ensures var m := MatchHeader(text, i, name, schemes, minimum); m.Some? ==> Inside(text, i, m.value)
  {
  }

  lemma {:induction false} KeysAreInside(text: seq<byte>, i: nat, keys: seq<seq<byte>>, minimum: nat, n: nat)
    requires minimum > 0 && n <= |keys|
    ensures var m := MatchKeys(text, i, keys, minimum, n); m.Some? ==> Inside(text, i, m.value)
  {
    if n > 0 { KeysAreInside(text, i, keys, minimum, n - 1); }
  }

  lemma MatchIsInside(p: Pattern, text: seq<byte>, i: nat)
    requires i <= |text| && Usable(p)
    ensures var m := MatchAt(p, text, i); m.Some? ==> Inside(text, i, m.value)
  {
    match p
    case Exact(prefix, count, c) =>
    case AtLeast(prefixes, minimum, c) =>
      var k := FirstWord(text, i, prefixes, 0);
      if k < |prefixes| { assert Word(prefixes[k]); }
    case Block(begin, names, tail, end) => BlockIsInside(text, i, begin, names, tail, end);
    case Header(name, schemes, minimum) => HeaderIsInside(text, i, name, schemes, minimum);
    case Pair(keys, minimum) => KeysAreInside(text, i, keys, minimum, |keys|);
  }

  lemma {:induction false} BestIsInside(ps: seq<Pattern>, text: seq<byte>, i: nat, n: nat)
    requires i <= |text| && n <= |ps| && AllUsable(ps)
    ensures var m := Best(ps, text, i, n); m.Some? ==> Inside(text, i, m.value)
  {
    if n > 0 {
      BestIsInside(ps, text, i, n - 1);
      assert Usable(ps[n - 1]);
      MatchIsInside(ps[n - 1], text, i);
    }
  }

  /** After an ASCII byte comes a boundary; so it is in every valid text. */
  ghost predicate AsciiEnds(text: seq<byte>) {
    forall i {:trigger Boundary(text, i)} :: 0 < i <= |text| && text[i - 1] < 128 ==> Boundary(text, i)
  }

  lemma TextEndsAscii(text: seq<byte>)
    requires Utf8.Valid(text)
    ensures AsciiEnds(text)
  {
    forall i | 0 < i <= |text| && text[i - 1] < 128 ensures Boundary(text, i) {
      AfterAscii(text, i - 1);
    }
  }

  /** Of a valid text it masks whole characters. */
  ghost predicate Clean(text: seq<byte>, i: nat, m: Match) {
    Boundary(text, i + m.offset) && Boundary(text, i + m.offset + m.length)
  }

  lemma RunEndsClean(text: seq<byte>, i: nat, c: Class)
    requires AsciiEnds(text) && i <= |text| && c != ValueChar && i < RunEnd(text, i, c)
    ensures Boundary(text, i) && Boundary(text, RunEnd(text, i, c))
  {
    var r := RunEnd(text, i, c);
    RunIsMaximal(text, i, c);
    ClassesAreAscii(c, text[i]);
    ClassesAreAscii(c, text[r - 1]);
  }

  lemma WordIsClean(text: seq<byte>, i: nat, w: seq<byte>)
    requires AsciiEnds(text) && Word(w) && (Starts(text, i, w) || StartsFolded(text, i, w))
    ensures Boundary(text, i) && Boundary(text, i + |w|)
  {
    var n := |w|;
    if Starts(text, i, w) {
      assert text[i] == text[i..i + n][0] && text[i + n - 1] == text[i..i + n][n - 1];
    } else {
      assert Folded(text[i + 0]) == w[0] && Folded(text[i + (n - 1)]) == w[n - 1];
    }
  }

  lemma ExactIsClean(text: seq<byte>, i: nat, prefix: seq<byte>, count: nat, c: Class)
    requires AsciiEnds(text) && Word(prefix) && c != ValueChar
    ensures var m := MatchExact(text, i, prefix, count, c); m.Some? ==> Clean(text, i, m.value)
  {
    if MatchExact(text, i, prefix, count, c).Some? {
      WordIsClean(text, i, prefix);
      if count > 0 { RunEndsClean(text, i + |prefix|, c); }
    }
  }

  lemma AtLeastIsClean(text: seq<byte>, i: nat, prefixes: seq<seq<byte>>, minimum: nat, c: Class)
    requires AsciiEnds(text) && AllWords(prefixes) && c != ValueChar
    ensures var m := MatchAtLeast(text, i, prefixes, minimum, c); m.Some? ==> Clean(text, i, m.value)
  {
    if MatchAtLeast(text, i, prefixes, minimum, c).Some? {
      var k := FirstWord(text, i, prefixes, 0);
      var from := i + |prefixes[k]|;
      assert Word(prefixes[k]);
      WordIsClean(text, i, prefixes[k]);
      if from < RunEnd(text, from, c) { RunEndsClean(text, from, c); }
    }
  }

  lemma BlockIsClean(text: seq<byte>, i: nat, begin: seq<byte>, names: seq<seq<byte>>, tail: seq<byte>, end: seq<byte>)
    requires AsciiEnds(text) && Usable(Block(begin, names, tail, end))
    ensures var m := MatchBlock(text, i, begin, names, tail, end); m.Some? ==> Clean(text, i, m.value)
  {
    if MatchBlock(text, i, begin, names, tail, end).Some? {
      WordIsClean(text, i, begin);
      var k := FirstName(text, i + |begin|, names, tail, 0);
      var found := Find(text, i + |begin| + |names[k]| + |tail|, end + names[k] + tail);
      if found.Some? { NeedleIsClean(text, found.value, end, names[k], tail); }
    }
  }

  lemma NeedleIsClean(text: seq<byte>, i: nat, end: seq<byte>, name: seq<byte>, tail: seq<byte>)
    requires AsciiEnds(text) && Word(end) && IsAscii(name) && IsAscii(tail) && Starts(text, i, end + name + tail)
    ensures Boundary(text, i + |end + name + tail|)
  {
    NeedleIsWord(end, name, tail);
    WordIsClean(text, i, end + name + tail);
  }

  lemma NeedleIsWord(end: seq<byte>, name: seq<byte>, tail: seq<byte>)
    requires Word(end) && IsAscii(name) && IsAscii(tail)
    ensures Word(end + name + tail)
  {
  }

  lemma HeaderIsClean(text: seq<byte>, i: nat, name: seq<byte>, schemes: seq<seq<byte>>, minimum: nat)
    requires AsciiEnds(text) && minimum > 0
    ensures var m := MatchHeader(text, i, name, schemes, minimum); m.Some? ==> Clean(text, i, m.value)
  {
    var m := MatchHeader(text, i, name, schemes, minimum);
    if m.Some? { RunEndsClean(text, i + m.value.offset, AuthChar); }
  }

  lemma KeyIsClean(text: seq<byte>, i: nat, key: seq<byte>, minimum: nat)
    requires AsciiEnds(text) && minimum > 0
    ensures var m := MatchKey(text, i, key, minimum); m.Some? ==> Clean(text, i, m.value)
  {
    var m := MatchKey(text, i, key, minimum);
    if m.Some? {
      var sign := RunEnd(text, i + |key|, Blank);
      var quote := RunEnd(text, sign + 1, Blank);
      var value := i + m.value.offset;
      if quote > sign + 1 { RunEndsClean(text, sign + 1, Blank); }
      ValueEndsClean(text, value);
    }
  }

  lemma ValueEndsClean(text: seq<byte>, i: nat)
    requires i <= |text|
    ensures Boundary(text, RunEnd(text, i, ValueChar))
  {
    RunIsMaximal(text, i, ValueChar);
  }

  lemma {:induction false} KeysAreClean(text: seq<byte>, i: nat, keys: seq<seq<byte>>, minimum: nat, n: nat)
    requires AsciiEnds(text) && minimum > 0 && n <= |keys|
    ensures var m := MatchKeys(text, i, keys, minimum, n); m.Some? ==> Clean(text, i, m.value)
  {
    if n > 0 {
      KeysAreClean(text, i, keys, minimum, n - 1);
      KeyIsClean(text, i, keys[n - 1], minimum);
    }
  }

  lemma MatchIsClean(p: Pattern, text: seq<byte>, i: nat)
    requires AsciiEnds(text) && i <= |text| && Usable(p)
    ensures var m := MatchAt(p, text, i); m.Some? ==> Clean(text, i, m.value)
  {
    match p
    case Exact(prefix, count, c) => ExactIsClean(text, i, prefix, count, c);
    case AtLeast(prefixes, minimum, c) => AtLeastIsClean(text, i, prefixes, minimum, c);
    case Block(begin, names, tail, end) => BlockIsClean(text, i, begin, names, tail, end);
    case Header(name, schemes, minimum) => HeaderIsClean(text, i, name, schemes, minimum);
    case Pair(keys, minimum) => KeysAreClean(text, i, keys, minimum, |keys|);
  }

  lemma {:induction false} BestIsClean(ps: seq<Pattern>, text: seq<byte>, i: nat, n: nat)
    requires AsciiEnds(text) && i <= |text| && n <= |ps| && AllUsable(ps)
    ensures var m := Best(ps, text, i, n); m.Some? ==> Clean(text, i, m.value)
  {
    if n > 0 {
      BestIsClean(ps, text, i, n - 1);
      assert Usable(ps[n - 1]);
      MatchIsClean(ps[n - 1], text, i);
    }
  }
}
