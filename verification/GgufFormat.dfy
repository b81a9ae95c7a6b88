/** The header of a GGUF file: metadata pairs, tensor entries and an aligned data section. */
module GgufFormat {
  import opened Statuses
  import opened Utf8
  import opened LittleEndian
  import opened Items

  const TYPE_U32: nat := 4
  const TYPE_STRING: nat := 8
  const TYPE_ARRAY: nat := 9

  datatype Pair = Pair(key: seq<byte>, kind: nat, value: seq<byte>)

  /** A tensor entry is kept as its bytes. */
  datatype Doc = Doc(version: nat, pairs: seq<Pair>, tensors: seq<seq<byte>>, align: nat, blob: seq<byte>)

  function Size(kind: nat): Option<nat> {
    if kind == 0 || kind == 1 || kind == 7 then Some(1)
    else if kind == 2 || kind == 3 then Some(2)
    else if kind == 4 || kind == 5 || kind == 6 then Some(4)
    else if kind == 10 || kind == 11 || kind == 12 then Some(8)
    else None
  }

  // ---------------------------------------------------------------- skipping values

  /** The length of the string at the front, its length field included. */
  function SkipString(s: seq<byte>): (r: Option<nat>)
    ensures r.Some? ==> 8 <= r.value <= |s|
  {
    if |s| < 8 || |s| < 8 + Value(s[..8]) then None else Some(8 + Value(s[..8]))
  }

  /** The length of the value of a kind at the front; arrays nest. */
  function SkipValue(s: seq<byte>, kind: nat): (r: Option<nat>)
    ensures r.Some? ==> 0 < r.value <= |s|
    decreases |s|, 0, 0
  {
    if kind == TYPE_STRING then SkipString(s)
    else if kind == TYPE_ARRAY then
      if |s| < 12 then None
      else
        match SkipMany(s[12..], Value(s[..4]), Value(s[4..12]))
        case None => None
        case Some(k) => Some(12 + k)
    else
      match Size(kind)
      case None => None
      case Some(k) => if |s| < k then None else Some(k)
  }

  function SkipMany(s: seq<byte>, kind: nat, n: nat): (r: Option<nat>)
    ensures r.Some? ==> r.value <= |s|
    decreases |s|, 1, n
  {
    if n == 0 then Some(0)
    else
      match SkipValue(s, kind)
      case None => None
      case Some(k) =>
        match SkipMany(s[k..], kind, n - 1)
        case None => None
        case Some(m) => Some(k + m)
  }

  // ---------------------------------------------------------------- pairs and tensors

  function PairLength(s: seq<byte>): (r: Option<nat>)
    ensures r.Some? ==> 0 < r.value <= |s|
  {
    match SkipString(s)
    case None => None
    case Some(a) =>
      if |s| < a + 4 then None
      else
        match SkipValue(s[a + 4..], Value(s[a..a + 4]))
        case None => None
        case Some(b) => Some(a + 4 + b)
  }

  function TensorLength(s: seq<byte>): (r: Option<nat>)
    ensures r.Some? ==> 0 < r.value <= |s|
  {
    match SkipString(s)
    case None => None
    case Some(a) =>
      if |s| < a + 4 || |s| < a + 4 + (8 * Value(s[a..a + 4]) + 12) then None
      else Some(a + 4 + (8 * Value(s[a..a + 4]) + 12))
  }

  /** The key, kind and value that a pair's bytes spell. */
  function PairOf(b: seq<byte>): Pair {
    if |b| < 8 || |b| < 8 + Value(b[..8]) + 4 then Pair([], 0, [])
    else
      var a := 8 + Value(b[..8]);
      Pair(b[8..a], Value(b[a..a + 4]), b[a + 4..])
  }

  function Pairs(items: seq<seq<byte>>): (ps: seq<Pair>)
    ensures |ps| == |items|
  {
    if items == [] then [] else Pairs(items[..|items| - 1]) + [PairOf(items[|items| - 1])]
  }

  // ---------------------------------------------------------------- the whole file

  function AlignmentKey(): seq<byte> {
    [103, 101, 110, 101, 114, 97, 108, 46, 97, 108, 105, 103, 110, 109, 101, 110, 116]
  }

  function MagicWord(): (m: seq<byte>) ensures |m| == 4 { [71, 71, 85, 70] }

  /** The last alignment given, by default 32; `alignKey` is its key. */
  function Alignment(pairs: seq<Pair>, alignKey: seq<byte>): nat {
    if pairs == [] then 32
    else
      var last := pairs[|pairs| - 1];
      if last.key == alignKey && |last.value| == 4 then Value(last.value)
      else Alignment(pairs[..|pairs| - 1], alignKey)
  }

  /** An alignment is a 32-bit number. */
  predicate AlignmentIsNumber(pairs: seq<Pair>, alignKey: seq<byte>) {
    forall k {:trigger pairs[k]} :: 0 <= k < |pairs| && pairs[k].key == alignKey ==> |pairs[k].value| == 4
  }

  /** n is a multiple of align. */
  predicate Aligned(n: nat, align: nat)
    requires align > 0
  {
    n == 0 || (n >= align && Aligned(n - align, align))
  }

  /** The first multiple of align from n on. */
  function RoundUp(n: nat, align: nat): (r: nat)
    requires align > 0
    ensures r >= n
  {
    RoundsUp(n, align);
    (n + align - 1) / align * align
  }

  lemma RoundsUp(n: nat, align: nat)
    requires align > 0
    ensures (n + align - 1) / align * align >= n
  {
    var m := n + align - 1;
    assert m == m / align * align + m % align;
  }

  lemma RoundUpIsAligned(n: nat, align: nat)
    requires align > 0
    ensures Aligned(RoundUp(n, align), align)
  {
    MultipleIsAligned((n + align - 1) / align, align);
  }

  lemma {:induction false} MultipleIsAligned(q: nat, a: nat)
    requires a > 0
    ensures q * a >= 0 && Aligned(q * a, a)
  {
    if q > 0 {
      MultipleIsAligned(q - 1, a);
      assert q * a == (q - 1) * a + a;
    }
  }

  /** The data section starts at the first aligned position after the header. */
  function BlobAt(file: seq<byte>, headerEnd: nat, align: nat): seq<byte>
    requires align > 0
  {
    if RoundUp(headerEnd, align) <= |file| then file[RoundUp(headerEnd, align)..] else []
  }

  /** The layout of a header: where the pairs and the tensor entries end. */
  datatype Layout = Layout(version: nat, tensorCount: nat, pairCount: nat, pairs: Taken, tensors: Taken)

  function ReadLayout(f: Length, g: Length, file: seq<byte>): (r: Option<Layout>)
    ensures r.Some? ==> 24 + r.value.pairs.used + r.value.tensors.used <= |file|
  {
    if |file| < 24 || file[..4] != MagicWord() then None
    else
      match ReadItems(f, file[24..], Value(file[16..24]))
      case None => None
      case Some(ps) =>
        match ReadItems(g, file[24 + ps.used..], Value(file[8..16]))
        case None => None
        case Some(ts) => Some(Layout(Value(file[4..8]), Value(file[8..16]), Value(file[16..24]), ps, ts))
  }

  predicate Usable(l: Layout, alignKey: seq<byte>) {
    var pairs := Pairs(l.pairs.items);
    AlignmentIsNumber(pairs, alignKey) && Alignment(pairs, alignKey) > 0
  }

  /** What a file of this layout says. */
  function DocOf(l: Layout, file: seq<byte>, alignKey: seq<byte>): Doc
    requires Usable(l, alignKey)
  {
    var pairs := Pairs(l.pairs.items);
    var align := Alignment(pairs, alignKey);
    Doc(l.version, pairs, l.tensors.items, align, BlobAt(file, 24 + l.pairs.used + l.tensors.used, align))
  }

  /** The header can be read; whether the alignment is positive is not asked. */
  predicate Readable(f: Length, g: Length, file: seq<byte>, alignKey: seq<byte>) {
    var l := ReadLayout(f, g, file);
    l.Some? && AlignmentIsNumber(Pairs(l.value.pairs.items), alignKey)
  }

  predicate WellFormed(f: Length, g: Length, file: seq<byte>, alignKey: seq<byte>) {
    var l := ReadLayout(f, g, file);
    l.Some? && Usable(l.value, alignKey)
  }

  /** What a well-formed file says. */
  function Parse(f: Length, g: Length, file: seq<byte>, alignKey: seq<byte>): Doc
    requires WellFormed(f, g, file, alignKey)
  {
    DocOf(ReadLayout(f, g, file).value, file, alignKey)
  }

  // ---------------------------------------------------------------- reading depends on what is read only

  lemma SkipStringLocal(s: seq<byte>, t: seq<byte>)
    requires SkipString(s).Some? && Agree(s, t, SkipString(s).value)
    ensures SkipString(t) == SkipString(s)
  {
    AgreeOn(s, t, SkipString(s).value, 0, 8);
  }

  lemma {:induction false} SkipValueLocal(s: seq<byte>, t: seq<byte>, kind: nat)
    requires SkipValue(s, kind).Some? && Agree(s, t, SkipValue(s, kind).value)
    ensures SkipValue(t, kind) == SkipValue(s, kind)
    decreases |s|, 0, 0
  {
    if kind == TYPE_STRING {
      SkipStringLocal(s, t);
    } else if kind == TYPE_ARRAY {
      var n := SkipValue(s, kind).value;
      AgreeOn(s, t, n, 0, 4);
      AgreeOn(s, t, n, 4, 12);
      AgreeOn(s, t, n, 12, n);
      SkipManyLocal(s[12..], t[12..], Value(s[..4]), Value(s[4..12]));
    }
  }

  lemma {:induction false} SkipManyLocal(s: seq<byte>, t: seq<byte>, kind: nat, n: nat)
    requires SkipMany(s, kind, n).Some? && Agree(s, t, SkipMany(s, kind, n).value)
    ensures SkipMany(t, kind, n) == SkipMany(s, kind, n)
    decreases |s|, 1, n
  {
    if n > 0 {
      var all, k := SkipMany(s, kind, n).value, SkipValue(s, kind).value;
      AgreeSplit(s, t, all, k);
      SkipValueLocal(s, t, kind);
      SkipManyLocal(s[k..], t[k..], kind, n - 1);
    }
  }

  lemma PairLengthLocal(s: seq<byte>, t: seq<byte>)
    requires PairLength(s).Some? && Agree(s, t, PairLength(s).value)
    ensures PairLength(t) == PairLength(s)
  {
    var n, a := PairLength(s).value, SkipString(s).value;
    AgreeOn(s, t, n, 0, a);
    SkipStringLocal(s, t);
    AgreeOn(s, t, n, a, a + 4);
    AgreeOn(s, t, n, a + 4, n);
    SkipValueLocal(s[a + 4..], t[a + 4..], Value(s[a..a + 4]));
  }

  lemma TensorLengthLocal(s: seq<byte>, t: seq<byte>)
    requires TensorLength(s).Some? && Agree(s, t, TensorLength(s).value)
    ensures TensorLength(t) == TensorLength(s)
  {
    var n, a := TensorLength(s).value, SkipString(s).value;
    AgreeOn(s, t, n, 0, a);
    SkipStringLocal(s, t);
    AgreeOn(s, t, n, a, a + 4);
  }

  lemma PairLengthIsLocal(f: Length)
    requires f == PairLength
    ensures Local(f)
  {
    forall s, t | f(s).Some? && Agree(s, t, f(s).value) ensures f(t) == f(s) {
      PairLengthLocal(s, t);
    }
  }

  lemma TensorLengthIsLocal(f: Length)
    requires f == TensorLength
    ensures Local(f)
  {
    forall s, t | f(s).Some? && Agree(s, t, f(s).value) ensures f(t) == f(s) {
      TensorLengthLocal(s, t);
    }
  }
}
