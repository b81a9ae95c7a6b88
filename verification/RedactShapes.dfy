/** What the secrets look like that the structural patterns find: which bytes a match of each kind
  * takes and masks, and that text of such a shape is matched. */
module RedactShapes {
  import opened Statuses
  import opened Utf8
  import opened Words
  import opened RedactPatterns
  import opened RedactMasks

  /** From a to b bytes of a class only, and no longer: what follows is none. */
  ghost predicate Stretch(text: seq<byte>, a: nat, b: nat, c: Class) {
    && a <= b <= |text| && (b < |text| ==> !In(c, text[b]))
    && forall k {:trigger In(c, text[k])} :: a <= k < b ==> In(c, text[k])
  }

  lemma StretchIsRun(text: seq<byte>, a: nat, b: nat, c: Class)
    requires a <= |text|
    ensures Stretch(text, a, b, c) <==> b == RunEnd(text, a, c)
  {
    RunIsMaximal(text, a, c);
    if Stretch(text, a, b, c) { RunIsUnique(text, a, c, b); }
  }

  /** The whole of a match is masked. */
  function Hidden(i: nat, end: nat): Match
    requires i <= end
  {
    Match(end - i, 0, end - i)
  }

  // ---------------------------------------------------------------- a prefix and so many bytes

  ghost predicate ExactShape(text: seq<byte>, i: nat, prefix: seq<byte>, count: nat, c: Class, m: Match) {
    var end := i + |prefix| + count;
    Starts(text, i, prefix) && Stretch(text, i + |prefix|, end, c) && m == Hidden(i, end)
  }

  lemma ExactIff(text: seq<byte>, i: nat, prefix: seq<byte>, count: nat, c: Class, m: Match)
    ensures MatchExact(text, i, prefix, count, c) == Some(m) <==> ExactShape(text, i, prefix, count, c, m)
  {
    if Starts(text, i, prefix) { StretchIsRun(text, i + |prefix|, i + |prefix| + count, c); }
  }

  // ---------------------------------------------------------------- a prefix and at least so many

  /** The k-th word is the first that starts here. */
  ghost predicate IsFirstWord(text: seq<byte>, i: nat, words: seq<seq<byte>>, k: nat) {
    && k < |words| && Starts(text, i, words[k])
    && forall j {:trigger words[j]} :: 0 <= j < k ==> !Starts(text, i, words[j])
  }

  lemma {:induction false} FirstWordIs(text: seq<byte>, i: nat, words: seq<seq<byte>>, from: nat, k: nat)
    requires from <= k < |words|
    requires forall j {:trigger words[j]} :: 0 <= j < from ==> !Starts(text, i, words[j])
    ensures IsFirstWord(text, i, words, k) <==> FirstWord(text, i, words, from) == k
    decreases |words| - from
  {
    if from < k && !Starts(text, i, words[from]) {
      FirstWordIs(text, i, words, from + 1, k);
    }
  }

  ghost predicate AtLeastFrom(text: seq<byte>, i: nat, from: nat, minimum: nat, c: Class, m: Match) {
    m == Match(m.total, 0, m.total) && Stretch(text, from, i + m.total, c) && from + minimum <= i + m.total
  }

  ghost predicate AtLeastShape(text: seq<byte>, i: nat, prefixes: seq<seq<byte>>, minimum: nat, c: Class, m: Match) {
    exists k: nat {:trigger IsFirstWord(text, i, prefixes, k)} ::
      k < |prefixes| && IsFirstWord(text, i, prefixes, k) && AtLeastFrom(text, i, i + |prefixes[k]|, minimum, c, m)
  }

  lemma AtLeastIff(text: seq<byte>, i: nat, prefixes: seq<seq<byte>>, minimum: nat, c: Class, m: Match)
    ensures MatchAtLeast(text, i, prefixes, minimum, c) == Some(m) <==> AtLeastShape(text, i, prefixes, minimum, c, m)
  {
    var k := FirstWord(text, i, prefixes, 0);
    if k < |prefixes| {
      FirstWordIs(text, i, prefixes, 0, k);
      StretchIsRun(text, i + |prefixes[k]|, i + m.total, c);
    }
    if j: nat :| j < |prefixes| && IsFirstWord(text, i, prefixes, j)
                 && AtLeastFrom(text, i, i + |prefixes[j]|, minimum, c, m) {
      FirstWordIs(text, i, prefixes, 0, j);
    }
  }

  // ---------------------------------------------------------------- a block between two lines

  ghost predicate IsFirstName(text: seq<byte>, i: nat, names: seq<seq<byte>>, tail: seq<byte>, k: nat) {
    && k < |names| && Starts(text, i, names[k] + tail)
    && forall j {:trigger names[j]} :: 0 <= j < k ==> !Starts(text, i, names[j] + tail)
  }

  lemma {:induction false} FirstNameIs(text: seq<byte>, i: nat, names: seq<seq<byte>>, tail: seq<byte>, from: nat,
                                       k: nat)
    requires from <= k < |names|
    requires forall j {:trigger names[j]} :: 0 <= j < from ==> !Starts(text, i, names[j] + tail)
    ensures IsFirstName(text, i, names, tail, k) <==> FirstName(text, i, names, tail, from) == k
    decreases |names| - from
  {
    if from < k && !Starts(text, i, names[from] + tail) {
      FirstNameIs(text, i, names, tail, from + 1, k);
    }
  }

  /** To the end of the first end line from there on, or to the end of the text when there is none. */
  ghost predicate BlockEnds(text: seq<byte>, from: nat, needle: seq<byte>, end: nat) {
    (end == |text| && forall p :: from <= p ==> !Starts(text, p, needle))
    || (from + |needle| <= end && Starts(text, end - |needle|, needle)
        && forall p :: from <= p < end - |needle| ==> !Starts(text, p, needle))
  }

  lemma {:induction false} FoundIsFirst(text: seq<byte>, from: nat, needle: seq<byte>)
    ensures var r := Find(text, from, needle);
            && (r.None? ==> forall p :: from <= p ==> !Starts(text, p, needle))
            && (r.Some? ==> forall p :: from <= p < r.value ==> !Starts(text, p, needle))
    decreases |text| - from
  {
    if from + |needle| <= |text| && !Starts(text, from, needle) && from < |text| {
      FoundIsFirst(text, from + 1, needle);
    }
  }

  ghost predicate BlockFrom(text: seq<byte>, i: nat, from: nat, needle: seq<byte>, m: Match) {
    m == Match(m.total, 0, m.total) && BlockEnds(text, from, needle, i + m.total)
  }

  ghost predicate NameFrom(text: seq<byte>, i: nat, at: nat, names: seq<seq<byte>>, tail: seq<byte>, end: seq<byte>,
                           m: Match) {
    exists k: nat {:trigger IsFirstName(text, at, names, tail, k)} ::
      && k < |names| && IsFirstName(text, at, names, tail, k)
      && BlockFrom(text, i, at + |names[k]| + |tail|, end + names[k] + tail, m)
  }

  ghost predicate BlockShape(text: seq<byte>, i: nat, begin: seq<byte>, names: seq<seq<byte>>, tail: seq<byte>,
                             end: seq<byte>, m: Match) {
    Starts(text, i, begin) && NameFrom(text, i, i + |begin|, names, tail, end, m)
  }

  lemma BlockToIff(text: seq<byte>, i: nat, from: nat, needle: seq<byte>, m: Match)
    requires i <= from <= |text|
    ensures BlockTo(text, i, from, needle) == m <==> BlockFrom(text, i, from, needle, m)
  {
    FoundIsFirst(text, from, needle);
    var found := Find(text, from, needle);
    if BlockFrom(text, i, from, needle, m) && found.Some? {
      assert Starts(text, found.value, needle);
    }
  }

  lemma NameIff(text: seq<byte>, i: nat, at: nat, names: seq<seq<byte>>, tail: seq<byte>, end: seq<byte>, m: Match,
                k: nat)
    requires i <= at && k == FirstName(text, at, names, tail, 0)
    ensures NameFrom(text, i, at, names, tail, end, m)
            <==> k < |names| && BlockTo(text, i, at + |names[k]| + |tail|, end + names[k] + tail) == m
  {
    if k < |names| {
      FirstNameIs(text, at, names, tail, 0, k);
      BlockToIff(text, i, at + |names[k]| + |tail|, end + names[k] + tail, m);
    }
    if j: nat :| j < |names| && IsFirstName(text, at, names, tail, j)
                 && BlockFrom(text, i, at + |names[j]| + |tail|, end + names[j] + tail, m) {
      FirstNameIs(text, at, names, tail, 0, j);
    }
  }

  lemma BlockIff(text: seq<byte>, i: nat, begin: seq<byte>, names: seq<seq<byte>>, tail: seq<byte>, end: seq<byte>,
                 m: Match)
    ensures MatchBlock(text, i, begin, names, tail, end) == Some(m)
            <==> BlockShape(text, i, begin, names, tail, end, m)
  {
    if Starts(text, i, begin) {
      NameIff(text, i, i + |begin|, names, tail, end, m, FirstName(text, i + |begin|, names, tail, 0));
    }
  }

  // ---------------------------------------------------------------- a header's token

  ghost predicate IsFirstFolded(text: seq<byte>, i: nat, words: seq<seq<byte>>, k: nat) {
    && k < |words| && StartsFolded(text, i, words[k])
    && forall j {:trigger words[j]} :: 0 <= j < k ==> !StartsFolded(text, i, words[j])
  }

  lemma {:induction false} FirstFoldedIs(text: seq<byte>, i: nat, words: seq<seq<byte>>, from: nat, k: nat)
    requires from <= k < |words|
    requires forall j {:trigger words[j]} :: 0 <= j < from ==> !StartsFolded(text, i, words[j])
    ensures IsFirstFolded(text, i, words, k) <==> FirstFolded(text, i, words, from) == k
    decreases |words| - from
  {
    if from < k && !StartsFolded(text, i, words[from]) {
      FirstFoldedIs(text, i, words, from + 1, k);
    }
  }

  /** After the scheme at least one blank, then all of the token, which is long enough; the token is
    * masked and ends the match. */
  ghost predicate TokenFrom(text: seq<byte>, i: nat, blank: nat, minimum: nat, m: Match) {
    var token, end := i + m.offset, i + m.total;
    && blank < token && Stretch(text, blank, token, Blank)
    && Stretch(text, token, end, AuthChar) && token + minimum <= end && m.length == end - token
  }

  ghost predicate SchemeFrom(text: seq<byte>, i: nat, j: nat, schemes: seq<seq<byte>>, minimum: nat, m: Match) {
    exists k: nat {:trigger IsFirstFolded(text, j, schemes, k)} ::
      k < |schemes| && IsFirstFolded(text, j, schemes, k) && TokenFrom(text, i, j + |schemes[k]|, minimum, m)
  }

  ghost predicate HeaderShape(text: seq<byte>, i: nat, name: seq<byte>, schemes: seq<seq<byte>>, minimum: nat,
                              m: Match) {
    && StartsFolded(text, i, name)
    && exists j: nat {:trigger Stretch(text, i + |name|, j, Blank)} ::
         j <= |text| && Stretch(text, i + |name|, j, Blank) && SchemeFrom(text, i, j, schemes, minimum, m)
  }

  /** The token of a header as the matcher measures it. */
  function MatchToken(text: seq<byte>, i: nat, blank: nat, minimum: nat): Option<Match>
    requires i <= blank <= |text|
  {
    var token := RunEnd(text, blank, Blank);
    var end := RunEnd(text, token, AuthChar);
    if token == blank || end - token < minimum then None else Some(Match(end - i, token - i, end - token))
  }

  lemma TokenIff(text: seq<byte>, i: nat, blank: nat, minimum: nat, m: Match)
    requires i <= blank <= |text|
    ensures MatchToken(text, i, blank, minimum) == Some(m) <==> TokenFrom(text, i, blank, minimum, m)
  {
    var token := RunEnd(text, blank, Blank);
    StretchIsRun(text, blank, token, Blank);
    StretchIsRun(text, blank, i + m.offset, Blank);
    StretchIsRun(text, token, RunEnd(text, token, AuthChar), AuthChar);
    StretchIsRun(text, token, i + m.total, AuthChar);
  }

  lemma SchemeIff(text: seq<byte>, i: nat, j: nat, schemes: seq<seq<byte>>, minimum: nat, m: Match, k: nat)
    requires i <= j <= |text| && k == FirstFolded(text, j, schemes, 0)
    ensures SchemeFrom(text, i, j, schemes, minimum, m)
            <==> k < |schemes| && MatchToken(text, i, j + |schemes[k]|, minimum) == Some(m)
  {
    if k < |schemes| {
      FirstFoldedIs(text, j, schemes, 0, k);
      TokenIff(text, i, j + |schemes[k]|, minimum, m);
    }
    if x: nat :| x < |schemes| && IsFirstFolded(text, j, schemes, x)
                 && TokenFrom(text, i, j + |schemes[x]|, minimum, m) {
      FirstFoldedIs(text, j, schemes, 0, x);
    }
  }

  lemma HeaderIff(text: seq<byte>, i: nat, name: seq<byte>, schemes: seq<seq<byte>>, minimum: nat, m: Match)
    ensures MatchHeader(text, i, name, schemes, minimum) == Some(m) <==> HeaderShape(text, i, name, schemes, minimum, m)
  {
    if StartsFolded(text, i, name) {
      var j := RunEnd(text, i + |name|, Blank);
      StretchIsRun(text, i + |name|, j, Blank);
      SchemeIff(text, i, j, schemes, minimum, m, FirstFolded(text, j, schemes, 0));
      if x: nat :| x <= |text| && Stretch(text, i + |name|, x, Blank) && SchemeFrom(text, i, x, schemes, minimum, m) {
        StretchIsRun(text, i + |name|, x, Blank);
      }
    }
  }

  // ---------------------------------------------------------------- a key and its value

  predicate Sign(b: byte) { b == 61 || b == 58 }

  predicate Quote(b: byte) { b == 34 || b == 39 }

  /** After the sign blanks, then a quote if there is one, then all of the value, which is long enough;
    * the value is masked and ends the match. */
  ghost predicate ValueFrom(text: seq<byte>, i: nat, sign: nat, minimum: nat, m: Match) {
    var value, end := i + m.offset, i + m.total;
    && sign < |text| && Sign(text[sign])
    && (if sign < value - 1 && value <= |text| && Quote(text[value - 1]) then Stretch(text, sign + 1, value - 1, Blank)
        else Stretch(text, sign + 1, value, Blank) && (value < |text| ==> !Quote(text[value])))
    && Stretch(text, value, end, ValueChar) && value + minimum <= end && m.length == end - value
  }

  ghost predicate KeyShape(text: seq<byte>, i: nat, key: seq<byte>, minimum: nat, m: Match) {
    && StartsFolded(text, i, key)
    && exists sign: nat {:trigger Stretch(text, i + |key|, sign, Blank)} ::
         sign <= |text| && Stretch(text, i + |key|, sign, Blank) && ValueFrom(text, i, sign, minimum, m)
  }

  function MatchValue(text: seq<byte>, i: nat, sign: nat, minimum: nat): Option<Match>
    requires i <= sign < |text|
  {
    var quote := RunEnd(text, sign + 1, Blank);
    var value := if quote < |text| && Quote(text[quote]) then quote + 1 else quote;
    var end := RunEnd(text, value, ValueChar);
    if end - value < minimum then None else Some(Match(end - i, value - i, end - value))
  }

  lemma ValueIff(text: seq<byte>, i: nat, sign: nat, minimum: nat, m: Match)
    requires i <= sign < |text| && Sign(text[sign])
    ensures MatchValue(text, i, sign, minimum) == Some(m) <==> ValueFrom(text, i, sign, minimum, m)
  {
    var quote := RunEnd(text, sign + 1, Blank);
    var value := if quote < |text| && Quote(text[quote]) then quote + 1 else quote;
    StretchIsRun(text, sign + 1, quote, Blank);
    StretchIsRun(text, value, RunEnd(text, value, ValueChar), ValueChar);
    var v := i + m.offset;
    StretchIsRun(text, sign + 1, v, Blank);
    if v > 0 { StretchIsRun(text, sign + 1, v - 1, Blank); }
    if v == value { StretchIsRun(text, value, i + m.total, ValueChar); }
  }

  lemma KeyIff(text: seq<byte>, i: nat, key: seq<byte>, minimum: nat, m: Match)
    ensures MatchKey(text, i, key, minimum) == Some(m) <==> KeyShape(text, i, key, minimum, m)
  {
    if StartsFolded(text, i, key) {
      var sign := RunEnd(text, i + |key|, Blank);
      StretchIsRun(text, i + |key|, sign, Blank);
      if sign < |text| && Sign(text[sign]) { ValueIff(text, i, sign, minimum, m); }
      if x: nat :| x <= |text| && Stretch(text, i + |key|, x, Blank) && ValueFrom(text, i, x, minimum, m) {
        StretchIsRun(text, i + |key|, x, Blank);
      }
    }
  }

  // ---------------------------------------------------------------- the longest

  /** None is longer, and none before it is as long. */
  ghost predicate Longest(ms: seq<Option<Match>>, c: nat, m: Match) {
    && c < |ms| && ms[c] == Some(m)
    && forall k {:trigger ms[k]} :: 0 <= k < |ms| && ms[k].Some? ==>
         ms[k].value.total <= m.total && (k < c ==> ms[k].value.total < m.total)
  }

  lemma LongestIff(ms: seq<Option<Match>>, m: Match)
    ensures LongestOf(ms) == Some(m) <==> exists c: nat :: Longest(ms, c, m)
  {
    LongestIsFirst(ms);
    if LongestOf(ms) == Some(m) {
      var c :| 0 <= c < |ms| && IsFirstLongest(ms, c, Some(m));
      assert Longest(ms, c, m);
    }
    if c: nat :| Longest(ms, c, m) {
      var b := LongestOf(ms);
      assert ms[c].Some?;
      var d :| 0 <= d < |ms| && IsFirstLongest(ms, d, b);
      assert ms[d] == b;
      assert c == d;
    }
  }

  /** Of what has a shape, by number: none is longer, none before it is as long. */
  ghost predicate Wins(shape: (nat, Match) -> bool, n: nat, c: nat, m: Match) {
    && c < n && shape(c, m)
    && forall k: nat, o: Match {:trigger shape(k, o)} ::
         k < n && shape(k, o) ==> o.total <= m.total && (k < c ==> o.total < m.total)
  }

  lemma WinsIff(shape: (nat, Match) -> bool, ms: seq<Option<Match>>, c: nat, m: Match)
    requires forall k: nat, o: Match {:trigger shape(k, o)} :: k < |ms| ==> (shape(k, o) <==> ms[k] == Some(o))
    ensures Wins(shape, |ms|, c, m) <==> Longest(ms, c, m)
  {
    if Wins(shape, |ms|, c, m) {
      forall k | 0 <= k < |ms| && ms[k].Some?
        ensures ms[k].value.total <= m.total && (k < c ==> ms[k].value.total < m.total)
      {
        assert shape(k, ms[k].value);
      }
    }
    if Longest(ms, c, m) {
      assert shape(c, m);
      forall k: nat, o: Match | k < |ms| && shape(k, o) ensures o.total <= m.total && (k < c ==> o.total < m.total) {
        assert ms[k] == Some(o);
      }
    }
  }

  ghost predicate WinsKey(text: seq<byte>, i: nat, keys: seq<seq<byte>>, minimum: nat, c: nat, m: Match) {
    Wins((k: nat, o: Match) => k < |keys| && KeyShape(text, i, keys[k], minimum, o), |keys|, c, m)
  }

  /** At a word boundary, the longest of what the keys and their values are. */
  ghost predicate PairShape(text: seq<byte>, i: nat, keys: seq<seq<byte>>, minimum: nat, m: Match)
    requires i <= |text|
  {
    (i > 0 ==> !AlphaNumeric(text[i - 1])) && exists c: nat :: WinsKey(text, i, keys, minimum, c, m)
  }

  lemma {:induction false} KeysAreLongest(text: seq<byte>, i: nat, keys: seq<seq<byte>>, minimum: nat, n: nat,
                                          ms: seq<Option<Match>>)
    requires n == |ms| <= |keys|
    requires forall k {:trigger ms[k]} :: 0 <= k < n ==> ms[k] == MatchKey(text, i, keys[k], minimum)
    ensures MatchKeys(text, i, keys, minimum, n) == LongestOf(ms)
  {
    if n > 0 { KeysAreLongest(text, i, keys, minimum, n - 1, ms[..n - 1]); }
  }

  lemma WinsKeyIff(text: seq<byte>, i: nat, keys: seq<seq<byte>>, minimum: nat, ms: seq<Option<Match>>, c: nat,
                   m: Match)
    requires |ms| == |keys|
    requires forall k {:trigger ms[k]} :: 0 <= k < |ms| ==> ms[k] == MatchKey(text, i, keys[k], minimum)
    ensures WinsKey(text, i, keys, minimum, c, m) <==> Longest(ms, c, m)
  {
    var shape := (k: nat, o: Match) => k < |keys| && KeyShape(text, i, keys[k], minimum, o);
    forall k: nat, o: Match | k < |keys| ensures shape(k, o) <==> ms[k] == Some(o) {
      KeyIff(text, i, keys[k], minimum, o);
    }
    WinsIff(shape, ms, c, m);
  }

  lemma PairIff(text: seq<byte>, i: nat, keys: seq<seq<byte>>, minimum: nat, m: Match)
    requires i <= |text|
    ensures MatchPair(text, i, keys, minimum) == Some(m) <==> PairShape(text, i, keys, minimum, m)
  {
    var ms := seq(|keys|, k requires 0 <= k < |keys| => MatchKey(text, i, keys[k], minimum));
    KeysAreLongest(text, i, keys, minimum, |keys|, ms);
    LongestIff(ms, m);
    forall c: nat ensures WinsKey(text, i, keys, minimum, c, m) <==> Longest(ms, c, m) {
      WinsKeyIff(text, i, keys, minimum, ms, c, m);
    }
  }

  // ---------------------------------------------------------------- patterns

  ghost predicate HasShape(p: Pattern, text: seq<byte>, i: nat, m: Match)
    requires i <= |text|
  {
    match p
    case Exact(prefix, count, c) => ExactShape(text, i, prefix, count, c, m)
    case AtLeast(prefixes, minimum, c) => AtLeastShape(text, i, prefixes, minimum, c, m)
    case Block(begin, names, tail, end) => BlockShape(text, i, begin, names, tail, end, m)
    case Header(name, schemes, minimum) => HeaderShape(text, i, name, schemes, minimum, m)
    case Pair(keys, minimum) => PairShape(text, i, keys, minimum, m)
  }

  /** A pattern matches exactly what has its shape. */
  lemma ShapeIff(p: Pattern, text: seq<byte>, i: nat, m: Match)
    requires i <= |text|
    ensures MatchAt(p, text, i) == Some(m) <==> HasShape(p, text, i, m)
  {
    match p
    case Exact(prefix, count, c) => ExactIff(text, i, prefix, count, c, m);
    case AtLeast(prefixes, minimum, c) => AtLeastIff(text, i, prefixes, minimum, c, m);
    case Block(begin, names, tail, end) => BlockIff(text, i, begin, names, tail, end, m);
    case Header(name, schemes, minimum) => HeaderIff(text, i, name, schemes, minimum, m);
    case Pair(keys, minimum) => PairIff(text, i, keys, minimum, m);
  }

  /** The shape that counts at a position: none is longer, none of an earlier pattern as long. */
  ghost predicate WinsAt(ps: seq<Pattern>, text: seq<byte>, i: nat, c: nat, m: Match)
    requires i <= |text|
  {
    Wins((k: nat, o: Match) => k < |ps| && HasShape(ps[k], text, i, o), |ps|, c, m)
  }

  lemma WinsAtIff(ps: seq<Pattern>, text: seq<byte>, i: nat, ms: seq<Option<Match>>, c: nat, m: Match)
    requires i <= |text| && AreMatches(ps, text, i, |ps|, ms)
    ensures WinsAt(ps, text, i, c, m) <==> Longest(ms, c, m)
  {
    var shape := (k: nat, o: Match) => k < |ps| && HasShape(ps[k], text, i, o);
    forall k: nat, o: Match | k < |ps| ensures shape(k, o) <==> ms[k] == Some(o) {
      ShapeIff(ps[k], text, i, o);
    }
    WinsIff(shape, ms, c, m);
  }

  /** What is taken and masked at a position is the shape that counts there. */
  lemma StructuralIff(ps: seq<Pattern>, text: seq<byte>, i: nat, m: Match)
    requires i <= |text|
    ensures Structural(ps, text, i) == Some(m) <==> exists c: nat :: WinsAt(ps, text, i, c, m)
  {
    var ms := seq(|ps|, k requires 0 <= k < |ps| => MatchAt(ps[k], text, i));
    BestIsFirst(ps, text, i, |ps|, ms);
    LongestIff(ms, m);
    forall c: nat ensures WinsAt(ps, text, i, c, m) <==> Longest(ms, c, m) {
      WinsAtIff(ps, text, i, ms, c, m);
    }
  }

  // ---------------------------------------------------------------- secrets are masked

  /** The position lies within a region, but not at its start: it was taken with an earlier match. */
  ghost predicate TakenBefore(regions: seq<Region>, i: nat) {
    exists k :: 0 <= k < |regions| && regions[k].start < i && Takes(regions[k], i)
  }

  ghost predicate IsSecretAt(ps: seq<Pattern>, text: seq<byte>, i: nat, m: Match) {
    i < |text| && exists c: nat :: WinsAt(ps, text, i, c, m)
  }

  /** Unless it was taken with an earlier match, whatever has the shape of a secret is a region. */
  lemma SecretIsRegion(ps: seq<Pattern>, text: seq<byte>, regions: seq<Region>, i: nat, m: Match)
    requires Scanned(ps, text, regions, |text|) && IsSecretAt(ps, text, i, m) && !TakenBefore(regions, i)
    ensures Region(i, m) in regions
  {
    StructuralIff(ps, text, i, m);
    assert Consumed(regions, i);
    var k :| 0 <= k < |regions| && Takes(regions[k], i);
    assert IsMatched(ps, text, regions[k], |text|);
  }

  /** What hides a secret is one mask, from its first byte to its last. */
  ghost predicate SecretsHidden(ps: seq<Pattern>, text: seq<byte>, regions: seq<Region>, masks: seq<Mask>) {
    forall i: nat, m: Match {:trigger IsSecretAt(ps, text, i, m)} ::
      IsSecretAt(ps, text, i, m) && !TakenBefore(regions, i) ==> Mask(i + m.offset, i + m.offset + m.length) in masks
  }

  lemma RegionIsMasked(regions: seq<Region>, runs: seq<Mask>, masks: seq<Mask>, r: Region)
    requires multiset(masks) == multiset(Masks(regions) + runs) && r in regions
    ensures MaskOf(r) in masks
  {
    var k :| 0 <= k < |regions| && regions[k] == r;
    assert (Masks(regions) + runs)[k] == MaskOf(r);
    assert MaskOf(r) in multiset(masks);
  }

  lemma SecretsAreHidden(ps: seq<Pattern>, text: seq<byte>, regions: seq<Region>, runs: seq<Mask>, masks: seq<Mask>)
    requires Scanned(ps, text, regions, |text|) && multiset(masks) == multiset(Masks(regions) + runs)
    ensures SecretsHidden(ps, text, regions, masks)
  {
    forall i: nat, m: Match | IsSecretAt(ps, text, i, m) && !TakenBefore(regions, i)
      ensures Mask(i + m.offset, i + m.offset + m.length) in masks
    {
      SecretIsRegion(ps, text, regions, i, m);
      RegionIsMasked(regions, runs, masks, Region(i, m));
    }
  }

  /** And every region is such a secret. */
  lemma RegionIsSecret(ps: seq<Pattern>, text: seq<byte>, regions: seq<Region>, k: nat)
    requires Scanned(ps, text, regions, |text|) && k < |regions|
    ensures IsSecretAt(ps, text, regions[k].start, regions[k].m)
  {
    assert IsMatched(ps, text, regions[k], |text|);
    StructuralIff(ps, text, regions[k].start, regions[k].m);
  }
}
