/** Adding one 32-bit metadata pair: what the new file says. */
module GgufRewrite {
  import opened Statuses
  import opened Utf8
  import opened LittleEndian
  import opened Items
  import opened GgufFormat

  function NewPair(key: seq<byte>, value: nat): seq<byte> {
    Little(|key|, 8) + (key + (Little(TYPE_U32, 4) + Little(value, 4)))
  }

  /** The first 24 bytes of the new file: one pair more. */
  function FrontOf(version: nat, tensorCount: nat, pairCount: nat): (s: seq<byte>)
    ensures |s| == 24
  {
    MagicWord() + (Little(version, 4) + (Little(tensorCount, 8) + Little(pairCount + 1, 8)))
  }

  function Front(l: Layout): (s: seq<byte>)
    ensures |s| == 24
  {
    FrontOf(l.version, l.tensorCount, l.pairCount)
  }

  function Zeros(n: nat): (s: seq<byte>)
    ensures |s| == n
  {
    seq(n, i => 0)
  }

  /** A header: counts, old pairs, the new pair, tensor entries. */
  function HeaderOf(front: seq<byte>, kept: seq<byte>, p: seq<byte>, tensors: seq<byte>): (s: seq<byte>)
    ensures |s| == |front| + |kept| + |p| + |tensors|
  {
    front + (kept + (p + tensors))
  }

  /** A header, padding and the data. */
  function FileOf(header: seq<byte>, align: nat, blob: seq<byte>): seq<byte>
    requires align > 0
  {
    header + (Zeros(RoundUp(|header|, align) - |header|) + blob)
  }

  function NewHeader(file: seq<byte>, l: Layout, key: seq<byte>, value: nat): seq<byte>
    requires 24 + l.pairs.used + l.tensors.used <= |file|
  {
    var kvEnd := 24 + l.pairs.used;
    HeaderOf(Front(l), file[24..kvEnd], NewPair(key, value), file[kvEnd..kvEnd + l.tensors.used])
  }

  function NewFile(file: seq<byte>, l: Layout, align: nat, key: seq<byte>, value: nat): seq<byte>
    requires align > 0 && 24 + l.pairs.used + l.tensors.used <= |file|
  {
    FileOf(NewHeader(file, l, key, value), align, BlobAt(file, 24 + l.pairs.used + l.tensors.used, align))
  }

  // ---------------------------------------------------------------- reading it back

  lemma Slices(a: seq<byte>, b: seq<byte>, c: seq<byte>)
    ensures (a + (b + c))[..|a|] == a && (a + (b + c))[|a|..|a| + |b|] == b && (a + (b + c))[|a| + |b|..] == c
    ensures (a + (b + c))[|a|..] == b + c
  {
    var s := a + (b + c);
    assert s[|a|..] == b + c;
    assert s[|a|..][..|b|] == s[|a|..|a| + |b|];
    assert s[|a|..][|b|..] == s[|a| + |b|..];
  }

  lemma NewPairSplits(key: seq<byte>, value: nat, rest: seq<byte>)
    requires |key| < WORD && value < HALF
    ensures var s, a := NewPair(key, value) + rest, 8 + |key|;
            && |NewPair(key, value)| == a + 8 && SkipString(s) == Some(a) && s[8..a] == key
            && Value(s[a..a + 4]) == TYPE_U32 && s[a + 4..a + 8] == Little(value, 4)
  {
    PairParts(Little(|key|, 8), key, Little(TYPE_U32, 4), Little(value, 4), rest, NewPair(key, value) + rest);
    EightBytes(|key|);
    FourBytes(TYPE_U32);
  }

  lemma PairParts(n: seq<byte>, key: seq<byte>, k: seq<byte>, v: seq<byte>, rest: seq<byte>, s: seq<byte>)
    requires |n| == 8 && |k| == 4 && |v| == 4 && s == n + (key + (k + v)) + rest
    ensures var a := 8 + |key|;
            a + 8 <= |s| && s[..8] == n && s[8..a] == key && s[a..a + 4] == k && s[a + 4..a + 8] == v
  {
    assert s == n + key + k + v + rest;
  }

  lemma NewPairReads(key: seq<byte>, value: nat, rest: seq<byte>)
    requires |key| < WORD && value < HALF
    ensures PairLength(NewPair(key, value) + rest) == Some(|NewPair(key, value)|)
  {
    NewPairSplits(key, value, rest);
  }

  lemma NewPairSays(key: seq<byte>, value: nat)
    requires |key| < WORD && value < HALF
    ensures PairOf(NewPair(key, value)) == Pair(key, TYPE_U32, Little(value, 4))
  {
    NewPairSplits(key, value, []);
    var p, a := NewPair(key, value), 8 + |key|;
    assert p + [] == p;
    assert p[a + 4..] == p[a + 4..a + 8];
  }

  lemma FrontReads(l: Layout, rest: seq<byte>)
    requires l.version < HALF && l.tensorCount < WORD && l.pairCount + 1 < WORD
    ensures var s := Front(l) + rest;
            && s[..4] == MagicWord() && Value(s[4..8]) == l.version && Value(s[8..16]) == l.tensorCount
            && Value(s[16..24]) == l.pairCount + 1 && s[24..] == rest
  {
    FrontSplits(MagicWord(), Little(l.version, 4), Little(l.tensorCount, 8), Little(l.pairCount + 1, 8), rest);
    FourBytes(l.version);
    EightBytes(l.tensorCount);
    EightBytes(l.pairCount + 1);
  }

  lemma FrontSplits(a: seq<byte>, b: seq<byte>, c: seq<byte>, d: seq<byte>, rest: seq<byte>)
    requires |a| == 4 && |b| == 4 && |c| == 8 && |d| == 8
    ensures var s := a + (b + (c + d)) + rest;
            s[..4] == a && s[4..8] == b && s[8..16] == c && s[16..24] == d && s[24..] == rest
  {
    var s := a + (b + (c + d)) + rest;
    assert s == a + b + c + d + rest;
  }

  lemma CountsAreBounded(f: Length, g: Length, file: seq<byte>, l: Layout)
    requires ReadLayout(f, g, file) == Some(l)
    ensures l.version < HALF && l.tensorCount < WORD
  {
    ValueIsBounded(file[4..8]);
    ValueIsBounded(file[8..16]);
    WordIsEightBytes();
    assert Power(4) == HALF;
  }

  /** The layout that a header of these parts has. */
  lemma LayoutIs(f: Length, g: Length, s: seq<byte>, u: seq<byte>, v: seq<byte>, l: Layout)
    requires |s| >= 24 && u == s[24..] && l.pairs.used <= |u| && v == s[24 + l.pairs.used..]
    requires s[..4] == MagicWord() && Value(s[4..8]) == l.version
    requires Value(s[8..16]) == l.tensorCount && Value(s[16..24]) == l.pairCount
    requires ReadItems(f, u, l.pairCount) == Some(l.pairs)
    requires ReadItems(g, v, l.tensorCount) == Some(l.tensors)
    ensures ReadLayout(f, g, s) == Some(l)
  {
    assert ReadItems(f, s[24..], Value(s[16..24])) == Some(l.pairs);
    assert ReadItems(g, s[24 + l.pairs.used..], Value(s[8..16])) == Some(l.tensors);
  }

  lemma AfterFront(a: seq<byte>, kept: seq<byte>, p: seq<byte>, rest: seq<byte>)
    ensures (a + (kept + (p + rest)))[|a| + (|kept| + |p|)..] == rest
  {
    assert a + (kept + (p + rest)) == a + kept + p + rest;
  }

  function OnePairMore(l: Layout, p: seq<byte>): Layout {
    Layout(l.version, l.tensorCount, l.pairCount + 1, Taken(l.pairs.items + [p], l.pairs.used + |p|), l.tensors)
  }

  predicate Bounded(l: Layout) {
    l.version < HALF && l.tensorCount < WORD && l.pairCount + 1 < WORD
  }

  lemma HeaderReads(f: Length, g: Length, l: Layout, kept: seq<byte>, p: seq<byte>, v: seq<byte>, u: seq<byte>)
    requires Bounded(l) && |kept| == l.pairs.used && u == kept + (p + v)
    requires ReadItems(f, u, l.pairCount + 1) == Some(Taken(l.pairs.items + [p], l.pairs.used + |p|))
    requires ReadItems(g, v, l.tensorCount) == Some(l.tensors)
    ensures ReadLayout(f, g, Front(l) + u) == Some(OnePairMore(l, p))
  {
    FrontReads(l, u);
    AfterFront(Front(l), kept, p, v);
    LayoutIs(f, g, Front(l) + u, u, v, OnePairMore(l, p));
  }

  lemma PartsReadBack(f: Length, g: Length, l: Layout, pairs: seq<byte>, tensors: seq<byte>, p: seq<byte>,
                      rest: seq<byte>, v: seq<byte>)
    requires Local(f) && Local(g)
    requires ReadItems(f, pairs, l.pairCount) == Some(l.pairs)
    requires ReadItems(g, tensors, l.tensorCount) == Some(l.tensors)
    requires v == tensors[..l.tensors.used] + rest && f(p + v) == Some(|p|)
    ensures ReadItems(f, pairs[..l.pairs.used] + (p + v), l.pairCount + 1)
            == Some(Taken(l.pairs.items + [p], l.pairs.used + |p|))
    ensures ReadItems(g, v, l.tensorCount) == Some(l.tensors)
  {
    ReadBackOneMore(f, pairs, l.pairCount, l.pairs, p, v);
    ReadBack(g, tensors, l.tensorCount, l.tensors, rest);
  }

  /** Whatever follows an item, the measure finds its end. */
  ghost predicate Delimits(f: Length, p: seq<byte>) {
    forall v {:trigger f(p + v)} :: f(p + v) == Some(|p|)
  }

  /** The layout of a header with one pair more. */
  lemma NewLayout(f: Length, g: Length, l: Layout, pairs: seq<byte>, tensors: seq<byte>, p: seq<byte>, rest: seq<byte>,
                  v: seq<byte>)
    requires Local(f) && Local(g) && Bounded(l)
    requires ReadItems(f, pairs, l.pairCount) == Some(l.pairs)
    requires ReadItems(g, tensors, l.tensorCount) == Some(l.tensors)
    requires v == tensors[..l.tensors.used] + rest && f(p + v) == Some(|p|)
    ensures ReadLayout(f, g, Front(l) + (pairs[..l.pairs.used] + (p + v))) == Some(OnePairMore(l, p))
  {
    PartsReadBack(f, g, l, pairs, tensors, p, rest, v);
    HeaderReads(f, g, l, pairs[..l.pairs.used], p, v, pairs[..l.pairs.used] + (p + v));
  }

  lemma Regroup(a: seq<byte>, b: seq<byte>, c: seq<byte>, d: seq<byte>, e: seq<byte>)
    ensures a + (b + (c + d)) + e == a + (b + (c + (d + e)))
  {
    assert c + d + e == c + (d + e);
    assert b + (c + d) + e == b + (c + (d + e));
  }

  lemma PairsNext(items: seq<seq<byte>>, b: seq<byte>)
    ensures Pairs(items + [b]) == Pairs(items) + [PairOf(b)]
  {
    assert (items + [b])[..|items|] == items;
  }

  lemma AlignmentStays(pairs: seq<Pair>, p: Pair, alignKey: seq<byte>)
    requires p.key != alignKey
    ensures Alignment(pairs + [p], alignKey) == Alignment(pairs, alignKey)
    ensures AlignmentIsNumber(pairs, alignKey) ==> AlignmentIsNumber(pairs + [p], alignKey)
  {
    assert (pairs + [p])[..|pairs|] == pairs;
  }

  lemma BlobStays(header: seq<byte>, align: nat, blob: seq<byte>)
    requires align > 0
    ensures BlobAt(FileOf(header, align, blob), |header|, align) == blob
  {
    var zeros := Zeros(RoundUp(|header|, align) - |header|);
    Slices(header, zeros, blob);
  }

  /** The data starts at the first multiple of the alignment after the header, and is all that follows. */
  predicate StartsAligned(out: seq<byte>, header: nat, align: nat, blob: seq<byte>)
    requires align > 0
  {
    var at := RoundUp(header, align);
    at <= |out| && out[at..] == blob && Aligned(at, align)
  }

  lemma BlobIsAligned(header: seq<byte>, align: nat, blob: seq<byte>)
    requires align > 0
    ensures StartsAligned(FileOf(header, align, blob), |header|, align, blob)
  {
    RoundUpIsAligned(|header|, align);
    Slices(header, Zeros(RoundUp(|header|, align) - |header|), blob);
  }

  lemma HeaderParts(f: Length, g: Length, file: seq<byte>, l: Layout, pairs: seq<byte>, tensors: seq<byte>)
    requires ReadLayout(f, g, file) == Some(l) && pairs == file[24..] && tensors == file[24 + l.pairs.used..]
    ensures ReadItems(f, pairs, l.pairCount) == Some(l.pairs)
    ensures ReadItems(g, tensors, l.tensorCount) == Some(l.tensors)
    ensures pairs[..l.pairs.used] == file[24..24 + l.pairs.used]
    ensures tensors[..l.tensors.used] == file[24 + l.pairs.used..24 + l.pairs.used + l.tensors.used]
  {
  }

  /** The layout of the new file: the same, with one pair more. */
  lemma NewFileReads(f: Length, g: Length, file: seq<byte>, l: Layout, p: seq<byte>, kept: seq<byte>, t: seq<byte>,
                     rest: seq<byte>)
    requires Local(f) && Local(g) && Delimits(f, p) && ReadLayout(f, g, file) == Some(l) && l.pairCount + 1 < WORD
    requires kept == file[24..24 + l.pairs.used] && t == file[24 + l.pairs.used..24 + l.pairs.used + l.tensors.used]
    ensures ReadLayout(f, g, HeaderOf(Front(l), kept, p, t) + rest) == Some(OnePairMore(l, p))
  {
    CountsAreBounded(f, g, file, l);
    var pairs, tensors := file[24..], file[24 + l.pairs.used..];
    HeaderParts(f, g, file, l, pairs, tensors);
    NewLayout(f, g, l, pairs, tensors, p, rest, t + rest);
    Regroup(Front(l), kept, p, t, rest);
  }

  /** A file of a known layout. */
  lemma LayoutSays(f: Length, g: Length, file: seq<byte>, l: Layout, alignKey: seq<byte>, pairs: seq<Pair>, align: nat,
                   end: nat)
    requires ReadLayout(f, g, file) == Some(l) && pairs == Pairs(l.pairs.items)
    requires AlignmentIsNumber(pairs, alignKey) && align == Alignment(pairs, alignKey) > 0
    requires end == 24 + l.pairs.used + l.tensors.used
    ensures WellFormed(f, g, file, alignKey)
    ensures Parse(f, g, file, alignKey) == Doc(l.version, pairs, l.tensors.items, align, BlobAt(file, end, align))
  {
  }

  lemma ParsedBlob(f: Length, g: Length, file: seq<byte>, l: Layout, alignKey: seq<byte>, d: Doc)
    requires ReadLayout(f, g, file) == Some(l) && WellFormed(f, g, file, alignKey) && d == Parse(f, g, file, alignKey)
    ensures d.align > 0 && d.blob == BlobAt(file, 24 + l.pairs.used + l.tensors.used, d.align)
  {
  }

  lemma NewSays(f: Length, g: Length, l: Layout, alignKey: seq<byte>, p: seq<byte>, header: seq<byte>, blob: seq<byte>,
                align: nat, pairs: seq<Pair>, out: seq<byte>)
    requires PairOf(p).key != alignKey && align > 0
    requires pairs == Pairs(l.pairs.items) && AlignmentIsNumber(pairs, alignKey) && Alignment(pairs, alignKey) == align
    requires out == FileOf(header, align, blob)
    requires ReadLayout(f, g, out) == Some(OnePairMore(l, p))
    requires |header| == 24 + l.pairs.used + |p| + l.tensors.used
    ensures WellFormed(f, g, out, alignKey)
    ensures Parse(f, g, out, alignKey) == Doc(l.version, pairs + [PairOf(p)], l.tensors.items, align, blob)
  {
    PairsNext(l.pairs.items, p);
    AlignmentStays(pairs, PairOf(p), alignKey);
    BlobStays(header, align, blob);
    LayoutSays(f, g, out, OnePairMore(l, p), alignKey, pairs + [PairOf(p)], align, |header|);
  }

  /** What the new file says, for any way of delimiting pairs and tensor entries. */
  lemma RewriteReads(f: Length, g: Length, file: seq<byte>, l: Layout, alignKey: seq<byte>, p: seq<byte>, d: Doc,
                     header: seq<byte>, out: seq<byte>)
    requires Local(f) && Local(g) && Delimits(f, p) && PairOf(p).key != alignKey && l.pairCount + 1 < WORD
    requires ReadLayout(f, g, file) == Some(l) && WellFormed(f, g, file, alignKey) && d == Parse(f, g, file, alignKey)
    requires header == HeaderOf(Front(l), file[24..24 + l.pairs.used], p,
                                file[24 + l.pairs.used..24 + l.pairs.used + l.tensors.used])
    requires out == FileOf(header, d.align, d.blob)
    ensures WellFormed(f, g, out, alignKey)
    ensures Parse(f, g, out, alignKey) == d.(pairs := d.pairs + [PairOf(p)])
  {
    var pairs := Pairs(l.pairs.items);
    var rest := Zeros(RoundUp(|header|, d.align) - |header|) + d.blob;
    LayoutSays(f, g, file, l, alignKey, pairs, d.align, 24 + l.pairs.used + l.tensors.used);
    NewFileReads(f, g, file, l, p, file[24..24 + l.pairs.used],
                 file[24 + l.pairs.used..24 + l.pairs.used + l.tensors.used], rest);
    NewSays(f, g, l, alignKey, p, header, d.blob, d.align, pairs, out);
  }

  predicate HasKey(pairs: seq<Pair>, key: seq<byte>) {
    exists k :: 0 <= k < |pairs| && pairs[k].key == key
  }

  lemma NewPairDelimits(f: Length, key: seq<byte>, value: nat)
    requires f == PairLength && |key| < WORD && value < HALF
    ensures Delimits(f, NewPair(key, value))
  {
    forall v ensures f(NewPair(key, value) + v) == Some(|NewPair(key, value)|) {
      NewPairReads(key, value, v);
    }
  }

  /** The new file says the same and the new pair: pairs in order, tensor entries, version,
    * alignment, and every byte of the tensor data, which starts aligned. */
  lemma RewriteKeepsMeaning(f: Length, g: Length, file: seq<byte>, l: Layout, alignKey: seq<byte>, key: seq<byte>,
                            value: nat, d: Doc)
    requires f == PairLength && g == TensorLength
    requires ReadLayout(f, g, file) == Some(l) && WellFormed(f, g, file, alignKey) && d == Parse(f, g, file, alignKey)
    requires key != alignKey && |key| < WORD && value < HALF && l.pairCount + 1 < WORD && d.align > 0
    ensures var out := NewFile(file, l, d.align, key, value);
            && WellFormed(f, g, out, alignKey)
            && Parse(f, g, out, alignKey) == d.(pairs := d.pairs + [Pair(key, TYPE_U32, Little(value, 4))])
            && StartsAligned(out, |NewHeader(file, l, key, value)|, d.align, d.blob)
  {
    PairLengthIsLocal(f);
    TensorLengthIsLocal(g);
    NewPairDelimits(f, key, value);
    NewPairSays(key, value);
    ParsedBlob(f, g, file, l, alignKey, d);
    var p, header, out := NewPair(key, value), NewHeader(file, l, key, value), NewFile(file, l, d.align, key, value);
    NewFileParts(file, l, d.align, key, value, p, header, out, d.blob);
    BlobIsAligned(header, d.align, d.blob);
    RewriteReads(f, g, file, l, alignKey, p, d, header, out);
  }

  lemma NewFileParts(file: seq<byte>, l: Layout, align: nat, key: seq<byte>, value: nat, p: seq<byte>,
                     header: seq<byte>,
                     out: seq<byte>, blob: seq<byte>)
    requires 24 + l.pairs.used + l.tensors.used <= |file| && align > 0
    requires p == NewPair(key, value) && blob == BlobAt(file, 24 + l.pairs.used + l.tensors.used, align)
    requires header == NewHeader(file, l, key, value) && out == NewFile(file, l, align, key, value)
    ensures header == HeaderOf(Front(l), file[24..24 + l.pairs.used], p,
                               file[24 + l.pairs.used..24 + l.pairs.used + l.tensors.used])
    ensures out == FileOf(header, align, blob)
  {
  }

  lemma NumberStays(pairs: seq<Pair>, p: Pair, alignKey: seq<byte>)
    requires AlignmentIsNumber(pairs, alignKey) && |p.value| == 4
    ensures AlignmentIsNumber(pairs + [p], alignKey) && HasKey(pairs + [p], p.key)
  {
    LastHasKey(pairs, p);
  }

  lemma LayoutIsReadable(f: Length, g: Length, file: seq<byte>, l: Layout, alignKey: seq<byte>, pairs: seq<Pair>)
    requires ReadLayout(f, g, file) == Some(l) && pairs == Pairs(l.pairs.items) && AlignmentIsNumber(pairs, alignKey)
    ensures Readable(f, g, file, alignKey)
  {
  }

  lemma Padded(header: seq<byte>, align: nat, blob: seq<byte>, out: seq<byte>) returns (rest: seq<byte>)
    requires align > 0 && out == FileOf(header, align, blob)
    ensures out == header + rest
  {
    rest := Zeros(RoundUp(|header|, align) - |header|) + blob;
  }

  /** The header of the new file reads as the old one with the new pair last, whatever its key. */
  lemma NewHasKey(f: Length, g: Length, file: seq<byte>, l: Layout, alignKey: seq<byte>, p: seq<byte>, pair: Pair,
                  header: seq<byte>, rest: seq<byte>, out: seq<byte>)
    requires Local(f) && Local(g) && Delimits(f, p) && l.pairCount + 1 < WORD
    requires pair == PairOf(p) && |pair.value| == 4
    requires ReadLayout(f, g, file) == Some(l) && AlignmentIsNumber(Pairs(l.pairs.items), alignKey)
    requires header == HeaderOf(Front(l), file[24..24 + l.pairs.used], p,
                                file[24 + l.pairs.used..24 + l.pairs.used + l.tensors.used])
    requires out == header + rest
    ensures Readable(f, g, out, alignKey) && ReadLayout(f, g, out) == Some(OnePairMore(l, p))
    ensures HasKey(Pairs(OnePairMore(l, p).pairs.items), pair.key)
  {
    NewFileReads(f, g, file, l, p, file[24..24 + l.pairs.used],
                 file[24 + l.pairs.used..24 + l.pairs.used + l.tensors.used], rest);
    PairsNext(l.pairs.items, p);
    NumberStays(Pairs(l.pairs.items), pair, alignKey);
    LayoutIsReadable(f, g, out, OnePairMore(l, p), alignKey, Pairs(l.pairs.items) + [pair]);
  }

  /** A second run finds the key, the alignment's own included, even when its value leaves a file
    * without a usable alignment. */
  lemma SecondRunFindsKey(f: Length, g: Length, file: seq<byte>, l: Layout, alignKey: seq<byte>, key: seq<byte>,
                          value: nat, d: Doc)
    requires f == PairLength && g == TensorLength
    requires ReadLayout(f, g, file) == Some(l) && WellFormed(f, g, file, alignKey) && d == Parse(f, g, file, alignKey)
    requires |key| < WORD && value < HALF && l.pairCount + 1 < WORD && d.align > 0
    ensures var out := NewFile(file, l, d.align, key, value);
            Readable(f, g, out, alignKey) && HasKey(Pairs(ReadLayout(f, g, out).value.pairs.items), key)
  {
    PairLengthIsLocal(f);
    TensorLengthIsLocal(g);
    NewPairDelimits(f, key, value);
    NewPairSays(key, value);
    ParsedBlob(f, g, file, l, alignKey, d);
    var p, header, out := NewPair(key, value), NewHeader(file, l, key, value), NewFile(file, l, d.align, key, value);
    NewFileParts(file, l, d.align, key, value, p, header, out, d.blob);
    var rest := Padded(header, d.align, d.blob, out);
    NewHasKey(f, g, file, l, alignKey, p, Pair(key, TYPE_U32, Little(value, 4)), header, rest, out);
  }

  lemma LastHasKey(pairs: seq<Pair>, p: Pair)
    ensures HasKey(pairs + [p], p.key)
  {
    assert (pairs + [p])[|pairs|].key == p.key;
  }

  // ---------------------------------------------------------------- adding the alignment itself

  /** The padding was computed for a while readers use b: the data section is found where it was
    * put exactly when both round the header up to the same place, or when there is no data to miss. */
  predicate SamePlace(header: nat, a: nat, b: nat, blob: seq<byte>)
    requires a > 0 && b > 0
  {
    RoundUp(header, b) == RoundUp(header, a) || (blob == [] && RoundUp(header, b) > RoundUp(header, a))
  }

  lemma BlobMoves(header: seq<byte>, a: nat, b: nat, blob: seq<byte>)
    requires a > 0 && b > 0
    ensures var out := FileOf(header, a, blob);
            BlobAt(out, |header|, b) == blob <==> SamePlace(|header|, a, b, blob)
  {
    BlobStays(header, a, blob);
  }

  /** The last alignment given is the one just added. */
  lemma AlignmentMoves(pairs: seq<Pair>, alignKey: seq<byte>, value: nat, p: Pair)
    requires value < HALF && p == Pair(alignKey, TYPE_U32, Little(value, 4)) && AlignmentIsNumber(pairs, alignKey)
    ensures Alignment(pairs + [p], alignKey) == value && AlignmentIsNumber(pairs + [p], alignKey)
  {
    FourBytes(value);
    assert (pairs + [p])[..|pairs|] == pairs;
  }

  /** A file of a known layout whose alignment is zero has no data section. */
  lemma LayoutUnsaid(f: Length, g: Length, file: seq<byte>, l: Layout, alignKey: seq<byte>)
    requires ReadLayout(f, g, file) == Some(l) && Alignment(Pairs(l.pairs.items), alignKey) == 0
    ensures !WellFormed(f, g, file, alignKey)
  {
  }

  lemma NewAlignmentSays(f: Length, g: Length, l: Layout, alignKey: seq<byte>, value: nat, p: seq<byte>,
                         header: seq<byte>,
                         d: Doc, pairs: seq<Pair>, out: seq<byte>)
    requires pairs == Pairs(l.pairs.items) && AlignmentIsNumber(pairs, alignKey) && d.align > 0 && value < HALF
    requires PairOf(p) == Pair(alignKey, TYPE_U32, Little(value, 4))
    requires out == FileOf(header, d.align, d.blob)
    requires ReadLayout(f, g, out) == Some(OnePairMore(l, p))
    requires |header| == 24 + l.pairs.used + |p| + l.tensors.used
    ensures WellFormed(f, g, out, alignKey) <==> value > 0
    ensures value > 0 ==>
              Parse(f, g, out, alignKey)
              == Doc(l.version, pairs + [PairOf(p)], l.tensors.items, value, BlobAt(out, |header|, value))
  {
    PairsNext(l.pairs.items, p);
    AlignmentMoves(pairs, alignKey, value, PairOf(p));
    if value > 0 {
      LayoutSays(f, g, out, OnePairMore(l, p), alignKey, pairs + [PairOf(p)], value, |header|);
    } else {
      LayoutUnsaid(f, g, out, OnePairMore(l, p), alignKey);
    }
  }

  /** What a file says once an alignment was added. */
  ghost predicate Realigned(f: Length, g: Length, alignKey: seq<byte>, value: nat, d: Doc, header: nat,
                            out: seq<byte>) {
    && (WellFormed(f, g, out, alignKey) <==> value > 0)
    && (value > 0 ==>
          Parse(f, g, out, alignKey)
          == d.(pairs := d.pairs + [Pair(alignKey, TYPE_U32, Little(value, 4))], align := value,
                blob := BlobAt(out, header, value)))
  }

  lemma NewAlignmentReads(f: Length, g: Length, file: seq<byte>, l: Layout, alignKey: seq<byte>, value: nat,
                          p: seq<byte>,
                          d: Doc, header: seq<byte>, out: seq<byte>)
    requires Local(f) && Local(g) && Delimits(f, p) && l.pairCount + 1 < WORD && value < HALF
    requires PairOf(p) == Pair(alignKey, TYPE_U32, Little(value, 4))
    requires ReadLayout(f, g, file) == Some(l) && WellFormed(f, g, file, alignKey) && d == Parse(f, g, file, alignKey)
    requires header == HeaderOf(Front(l), file[24..24 + l.pairs.used], p,
                                file[24 + l.pairs.used..24 + l.pairs.used + l.tensors.used])
    requires out == FileOf(header, d.align, d.blob)
    ensures Realigned(f, g, alignKey, value, d, |header|, out)
  {
    var pairs := Pairs(l.pairs.items);
    var rest := Zeros(RoundUp(|header|, d.align) - |header|) + d.blob;
    LayoutSays(f, g, file, l, alignKey, pairs, d.align, 24 + l.pairs.used + l.tensors.used);
    NewFileReads(f, g, file, l, p, file[24..24 + l.pairs.used],
                 file[24 + l.pairs.used..24 + l.pairs.used + l.tensors.used], rest);
    NewAlignmentSays(f, g, l, alignKey, value, p, header, d, pairs, out);
  }

  /** Adding the alignment itself: the new file is well formed exactly when the value is positive; it
    * then says the same pairs and the new one, the same version and tensor entries, and keeps the
    * data exactly when both alignments put it in the same place. */
  lemma AlignmentKeyMovesData(f: Length, g: Length, file: seq<byte>, l: Layout, alignKey: seq<byte>, value: nat, d: Doc)
    requires f == PairLength && g == TensorLength
    requires ReadLayout(f, g, file) == Some(l) && WellFormed(f, g, file, alignKey) && d == Parse(f, g, file, alignKey)
    requires |alignKey| < WORD && value < HALF && l.pairCount + 1 < WORD && d.align > 0
    ensures var header, out := |NewHeader(file, l, alignKey, value)|, NewFile(file, l, d.align, alignKey, value);
            && Realigned(f, g, alignKey, value, d, header, out)
            && (value > 0 ==> (BlobAt(out, header, value) == d.blob <==> SamePlace(header, d.align, value, d.blob)))
  {
    PairLengthIsLocal(f);
    TensorLengthIsLocal(g);
    NewPairDelimits(f, alignKey, value);
    NewPairSays(alignKey, value);
    ParsedBlob(f, g, file, l, alignKey, d);
    var p, header := NewPair(alignKey, value), NewHeader(file, l, alignKey, value);
    var out := NewFile(file, l, d.align, alignKey, value);
    NewFileParts(file, l, d.align, alignKey, value, p, header, out, d.blob);
    NewAlignmentReads(f, g, file, l, alignKey, value, p, d, header, out);
    if value > 0 { BlobMoves(header, d.align, value, d.blob); }
  }

  /** For the key the format gives to the alignment: a file without the key that is asked for keeps
    * all it says, unless the key is the alignment and moves the data or is zero. */
  lemma AddingKeepsMeaningIff(f: Length, g: Length, file: seq<byte>, l: Layout, alignKey: seq<byte>, key: seq<byte>,
                              value: nat, d: Doc)
    requires f == PairLength && g == TensorLength && alignKey == AlignmentKey()
    requires ReadLayout(f, g, file) == Some(l) && WellFormed(f, g, file, alignKey) && d == Parse(f, g, file, alignKey)
    requires |key| < WORD && value < HALF && l.pairCount + 1 < WORD && d.align > 0
    ensures var header, out := |NewHeader(file, l, key, value)|, NewFile(file, l, d.align, key, value);
            var kept := d.(pairs := d.pairs + [Pair(key, TYPE_U32, Little(value, 4))]);
            (WellFormed(f, g, out, alignKey) && Parse(f, g, out, alignKey).(align := d.align) == kept)
            <==> key != alignKey || (value > 0 && SamePlace(header, d.align, value, d.blob))
  {
    if key == alignKey {
      AlignmentKeyMovesData(f, g, file, l, alignKey, value, d);
      assert |NewHeader(file, l, key, value)| == |NewHeader(file, l, alignKey, value)|;
    } else {
      RewriteKeepsMeaning(f, g, file, l, alignKey, key, value, d);
    }
  }

  // ---------------------------------------------------------------- a file that loses its data

  /** A header without pairs and tensor entries, padded to 32 bytes, and its data. */
  function Bare(version: nat, count: nat, blob: seq<byte>): seq<byte> {
    MagicWord() + (Little(version, 4) + (Little(count, 8) + Little(count, 8))) + (Zeros(8) + blob)
  }

  function NoItems(version: nat, count: nat): Layout {
    Layout(version, count, count, Taken([], 0), Taken([], 0))
  }

  lemma BareSays(f: Length, g: Length, version: nat, count: nat, blob: seq<byte>, alignKey: seq<byte>)
    requires version < HALF && count == 0
    ensures ReadLayout(f, g, Bare(version, count, blob)) == Some(NoItems(version, count))
    ensures WellFormed(f, g, Bare(version, count, blob), alignKey)
    ensures Parse(f, g, Bare(version, count, blob), alignKey) == Doc(version, [], [], 32, blob)
  {
    var v, n, rest, file := Little(version, 4), Little(count, 8), Zeros(8) + blob, Bare(version, count, blob);
    FrontSplits(MagicWord(), v, n, n, rest);
    FourBytes(version);
    EightBytes(count);
    LayoutIs(f, g, file, rest, rest, NoItems(version, count));
    BareBlob(file, rest, blob);
    LayoutSays(f, g, file, NoItems(version, count), alignKey, [], 32, 24);
  }

  lemma BareBlob(file: seq<byte>, rest: seq<byte>, blob: seq<byte>)
    requires |file| >= 24 && file[24..] == rest == Zeros(8) + blob
    ensures BlobAt(file, 24, 32) == blob
  {
    assert RoundUp(24, 32) == 32;
    assert file[32..] == file[24..][8..];
  }

  /** Adding the alignment 48 to such a file with one byte of data: readers no longer find it. */
  lemma AlignmentLosesData(f: Length, g: Length, alignKey: seq<byte>, version: nat, count: nat, blob: seq<byte>)
    requires f == PairLength && g == TensorLength && alignKey == AlignmentKey()
    requires version < HALF && count == 0 && |blob| == 1
    ensures var file, l := Bare(version, count, blob), NoItems(version, count);
            && WellFormed(f, g, file, alignKey) && Parse(f, g, file, alignKey).blob == blob
            && ReadLayout(f, g, file) == Some(l)
            && var out := NewFile(file, l, 32, alignKey, 48);
               WellFormed(f, g, out, alignKey) && Parse(f, g, out, alignKey).blob != blob
  {
    var file, l := Bare(version, count, blob), NoItems(version, count);
    BareSays(f, g, version, count, blob, alignKey);
    AlignmentKeyMovesData(f, g, file, l, alignKey, 48, Doc(version, [], [], 32, blob));
    HeaderIs57(file, l, alignKey, 48);
    Moved57();
  }

  lemma HeaderIs57(file: seq<byte>, l: Layout, key: seq<byte>, value: nat)
    requires |key| == 17 && l.pairs.used == 0 && l.tensors.used == 0 && |file| >= 24
    ensures |NewHeader(file, l, key, value)| == 57
  {
  }

  lemma Moved57()
    ensures RoundUp(57, 32) == 64 && RoundUp(57, 48) == 96
  {
  }
}
