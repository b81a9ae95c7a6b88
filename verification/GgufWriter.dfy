/** Writing a GGUF file from what it is to say: the reference the reader and the script are held to. */
module GgufWriter {
  import opened Statuses
  import opened Utf8
  import opened LittleEndian
  import opened Items
  import opened GgufFormat
  import opened GgufRewrite
  import GgufScript

  // ---------------------------------------------------------------- values

  datatype Scalar = UInt8 | Int8 | UInt16 | Int16 | UInt32 | Int32 | Float32 | Bool | UInt64 | Int64 | Float64

  /** A scalar as its bytes, a string, or an array of values of one kind. */
  datatype Val = One(of: Scalar, bytes: seq<byte>) | Text(text: seq<byte>) | Many(kind: nat, items: Vals)

  datatype Vals = Nil | Cons(head: Val, tail: Vals)

  function Width(of: Scalar): nat {
    match of
    case UInt8 | Int8 | Bool => 1
    case UInt16 | Int16 => 2
    case UInt32 | Int32 | Float32 => 4
    case UInt64 | Int64 | Float64 => 8
  }

  function Number(of: Scalar): nat {
    match of
    case UInt8 => 0 case Int8 => 1 case UInt16 => 2 case Int16 => 3 case UInt32 => 4 case Int32 => 5
    case Float32 => 6 case Bool => 7 case UInt64 => 10 case Int64 => 11 case Float64 => 12
  }

  function KindOf(v: Val): nat {
    match v
    case One(of, _) => Number(of)
    case Text(_) => 8
    case Many(_, _) => 9
  }

  function Count(vs: Vals): nat {
    match vs
    case Nil => 0
    case Cons(_, tail) => 1 + Count(tail)
  }

  function Counted(text: seq<byte>): seq<byte> { Little(|text|, 8) + text }

  function Bytes(v: Val): seq<byte> {
    match v
    case One(_, bytes) => bytes
    case Text(text) => Counted(text)
    case Many(kind, items) => Little(kind, 4) + (Little(Count(items), 8) + AllBytes(items))
  }

  function AllBytes(vs: Vals): seq<byte> {
    match vs
    case Nil => []
    case Cons(head, tail) => Bytes(head) + AllBytes(tail)
  }

  /** Widths are right, lengths fit their fields, and an array's values are of its kind. */
  predicate Proper(v: Val) {
    match v
    case One(of, bytes) => |bytes| == Width(of)
    case Text(text) => |text| < WORD
    case Many(kind, items) => kind < HALF && Count(items) < WORD && AllProper(items, kind)
  }

  predicate AllProper(vs: Vals, kind: nat) {
    match vs
    case Nil => true
    case Cons(head, tail) => Proper(head) && KindOf(head) == kind && AllProper(tail, kind)
  }

  lemma CountedSkips(text: seq<byte>, rest: seq<byte>)
    requires |text| < WORD
    ensures SkipString(Counted(text) + rest) == Some(8 + |text|)
  {
    var s := Counted(text) + rest;
    assert s[..8] == Little(|text|, 8);
    EightBytes(|text|);
  }

  lemma ArrayParts(kind: nat, count: nat, items: seq<byte>, rest: seq<byte>)
    requires kind < HALF && count < WORD
    ensures var s := Little(kind, 4) + (Little(count, 8) + items) + rest;
            && |s| == 12 + |items| + |rest| && s[12..] == items + rest
            && Value(s[..4]) == kind && Value(s[4..12]) == count
  {
    var s := Little(kind, 4) + (Little(count, 8) + items) + rest;
    assert s[..4] == Little(kind, 4) && s[4..12] == Little(count, 8) && s[12..] == items + rest;
    FourBytes(kind);
    EightBytes(count);
  }

  /** A value that was written is skipped whole, whatever follows; arrays nest. */
  lemma {:induction false} ValSkips(v: Val, rest: seq<byte>)
    requires Proper(v)
    ensures SkipValue(Bytes(v) + rest, KindOf(v)) == Some(|Bytes(v)|)
    decreases v
  {
    match v
    case One(of, bytes) =>
    case Text(text) => CountedSkips(text, rest);
    case Many(kind, items) =>
      ArrayParts(kind, Count(items), AllBytes(items), rest);
      ValsSkip(items, kind, rest);
  }

  lemma {:induction false} ValsSkip(vs: Vals, kind: nat, rest: seq<byte>)
    requires AllProper(vs, kind)
    ensures SkipMany(AllBytes(vs) + rest, kind, Count(vs)) == Some(|AllBytes(vs)|)
    decreases vs
  {
    match vs
    case Nil =>
    case Cons(head, tail) =>
      var more := AllBytes(tail) + rest;
      ValSkips(head, more);
      ValsSkip(tail, kind, rest);
      assert AllBytes(vs) + rest == Bytes(head) + more;
      assert (Bytes(head) + more)[|Bytes(head)|..] == more;
      OneValueMore(Bytes(head) + more, more, kind, Count(tail), |Bytes(head)|, |AllBytes(tail)|);
  }

  lemma OneValueMore(s: seq<byte>, more: seq<byte>, kind: nat, n: nat, k: nat, m: nat)
    requires SkipValue(s, kind) == Some(k) && more == s[k..] && SkipMany(more, kind, n) == Some(m)
    ensures SkipMany(s, kind, n + 1) == Some(k + m)
  {
  }

  // ---------------------------------------------------------------- pairs and tensors

  datatype Meta = Meta(key: seq<byte>, value: Val)

  predicate ProperMeta(m: Meta) { |m.key| < WORD && Proper(m.value) }

  function MetaBytes(m: Meta): seq<byte> {
    Counted(m.key) + (Little(KindOf(m.value), 4) + Bytes(m.value))
  }

  lemma KindsAreSmall(v: Val)
    ensures KindOf(v) < 13
  {
  }

  /** Where a pair's key, kind and value lie. */
  lemma MetaParts(key: seq<byte>, kind: nat, value: seq<byte>, rest: seq<byte>)
    requires |key| < WORD && kind < HALF
    ensures var s, a := Counted(key) + (Little(kind, 4) + value) + rest, 8 + |key|;
            && |s| == a + 4 + |value| + |rest| && SkipString(s) == Some(a) && s[8..a] == key
            && Value(s[a..a + 4]) == kind && s[a + 4..] == value + rest && Value(s[..8]) == |key|
  {
    var s, a := Counted(key) + (Little(kind, 4) + value) + rest, 8 + |key|;
    assert s == Counted(key) + (Little(kind, 4) + value + rest);
    CountedSkips(key, Little(kind, 4) + value + rest);
    assert s[..8] == Little(|key|, 8) && s[8..a] == key && s[a..a + 4] == Little(kind, 4) && s[a + 4..] == value + rest;
    EightBytes(|key|);
    FourBytes(kind);
  }

  lemma MetaReads(m: Meta, rest: seq<byte>)
    requires ProperMeta(m)
    ensures PairLength(MetaBytes(m) + rest) == Some(|MetaBytes(m)|)
  {
    KindsAreSmall(m.value);
    MetaParts(m.key, KindOf(m.value), Bytes(m.value), rest);
    ValSkips(m.value, rest);
  }

  lemma MetaSays(m: Meta)
    requires ProperMeta(m)
    ensures PairOf(MetaBytes(m)) == Pair(m.key, KindOf(m.value), Bytes(m.value))
  {
    KindsAreSmall(m.value);
    MetaParts(m.key, KindOf(m.value), Bytes(m.value), []);
    assert MetaBytes(m) + [] == MetaBytes(m) && Bytes(m.value) + [] == Bytes(m.value);
  }

  /** A name, the extent of each dimension, a type, and where the data lies. */
  datatype Tensor = Tensor(name: seq<byte>, dims: seq<nat>, kind: nat, offset: nat)

  predicate ProperTensor(t: Tensor) { |t.name| < WORD && |t.dims| < HALF }

  function Extents(dims: seq<nat>): (s: seq<byte>)
    ensures |s| == 8 * |dims|
  {
    if dims == [] then [] else Little(dims[0], 8) + Extents(dims[1..])
  }

  function TensorBytes(t: Tensor): seq<byte> {
    Counted(t.name) + (Little(|t.dims|, 4) + (Extents(t.dims) + (Little(t.kind, 4) + Little(t.offset, 8))))
  }

  lemma TensorReads(t: Tensor, rest: seq<byte>)
    requires ProperTensor(t)
    ensures TensorLength(TensorBytes(t) + rest) == Some(|TensorBytes(t)|)
  {
    MetaParts(t.name, |t.dims|, Extents(t.dims) + (Little(t.kind, 4) + Little(t.offset, 8)), rest);
  }

  // ---------------------------------------------------------------- the file

  /** What a file is to say. */
  datatype Model = Model(version: nat, metas: seq<Meta>, tensors: seq<Tensor>, data: seq<byte>)

  function MetaItems(metas: seq<Meta>): (items: seq<seq<byte>>)
    ensures |items| == |metas|
  {
    if metas == [] then [] else MetaItems(metas[..|metas| - 1]) + [MetaBytes(metas[|metas| - 1])]
  }

  function TensorItems(tensors: seq<Tensor>): (items: seq<seq<byte>>)
    ensures |items| == |tensors|
  {
    if tensors == [] then [] else TensorItems(tensors[..|tensors| - 1]) + [TensorBytes(tensors[|tensors| - 1])]
  }

  function Flat(items: seq<seq<byte>>): seq<byte> {
    if items == [] then [] else Flat(items[..|items| - 1]) + items[|items| - 1]
  }

  /** Items that a measure delimits are read back from their bytes. */
  lemma {:induction false} ItemsRead(f: Length, items: seq<seq<byte>>, rest: seq<byte>)
    requires forall k {:trigger items[k]} :: 0 <= k < |items| ==> Delimits(f, items[k])
    ensures ReadItems(f, Flat(items) + rest, |items|) == Some(Taken(items, |Flat(items)|))
  {
    if items != [] {
      var n := |items| - 1;
      var front, last := items[..n], items[n];
      ItemsRead(f, front, last + rest);
      var s := Flat(front) + (last + rest);
      assert Flat(items) + rest == s;
      assert s[|Flat(front)|..] == last + rest;
      assert Delimits(f, items[n]) && f(last + rest) == Some(|last|);
      OneMore(f, s, n, Taken(front, |Flat(front)|), |last|, last);
      assert front + [last] == items;
    }
  }

  lemma {:induction false} MetasDelimit(f: Length, metas: seq<Meta>)
    requires f == PairLength && forall k {:trigger metas[k]} :: 0 <= k < |metas| ==> ProperMeta(metas[k])
    ensures forall k {:trigger MetaItems(metas)[k]} :: 0 <= k < |metas| ==> Delimits(f, MetaItems(metas)[k])
  {
    if metas != [] {
      var m := metas[|metas| - 1];
      MetasDelimit(f, metas[..|metas| - 1]);
      forall v ensures f(MetaBytes(m) + v) == Some(|MetaBytes(m)|) { MetaReads(m, v); }
      assert Delimits(f, MetaBytes(m));
    }
  }

  lemma {:induction false} TensorsDelimit(g: Length, tensors: seq<Tensor>)
    requires g == TensorLength && forall k {:trigger tensors[k]} :: 0 <= k < |tensors| ==> ProperTensor(tensors[k])
    ensures forall k {:trigger TensorItems(tensors)[k]} :: 0 <= k < |tensors| ==> Delimits(g, TensorItems(tensors)[k])
  {
    if tensors != [] {
      var t := tensors[|tensors| - 1];
      TensorsDelimit(g, tensors[..|tensors| - 1]);
      forall v ensures g(TensorBytes(t) + v) == Some(|TensorBytes(t)|) { TensorReads(t, v); }
      assert Delimits(g, TensorBytes(t));
    }
  }

  /** What the pairs say. */
  function Said(metas: seq<Meta>): (pairs: seq<Pair>)
    ensures |pairs| == |metas|
  {
    if metas == [] then []
    else
      var m := metas[|metas| - 1];
      Said(metas[..|metas| - 1]) + [Pair(m.key, KindOf(m.value), Bytes(m.value))]
  }

  lemma {:induction false} PairsAreSaid(metas: seq<Meta>)
    requires forall k {:trigger metas[k]} :: 0 <= k < |metas| ==> ProperMeta(metas[k])
    ensures Pairs(MetaItems(metas)) == Said(metas)
  {
    if metas != [] {
      var n := |metas| - 1;
      PairsAreSaid(metas[..n]);
      MetaSays(metas[n]);
      PairsNext(MetaItems(metas[..n]), MetaBytes(metas[n]));
    }
  }

  /** The alignment that the pairs give last, or 32. */
  function GivenAlignment(metas: seq<Meta>, alignKey: seq<byte>): nat {
    if metas == [] then 32
    else
      var m := metas[|metas| - 1];
      if m.key == alignKey then LittleEndian.Value(Bytes(m.value))
      else GivenAlignment(metas[..|metas| - 1], alignKey)
  }

  /** An alignment is a 32-bit number. */
  predicate ProperAlign(m: Meta, alignKey: seq<byte>) {
    m.key == alignKey ==> |Bytes(m.value)| == 4
  }

  predicate ProperMetas(metas: seq<Meta>, alignKey: seq<byte>) {
    forall k {:trigger metas[k]} :: 0 <= k < |metas| ==> ProperMeta(metas[k]) && ProperAlign(metas[k], alignKey)
  }

  predicate ProperModel(m: Model, alignKey: seq<byte>) {
    && m.version < HALF && |m.metas| < WORD && |m.tensors| < WORD
    && ProperMetas(m.metas, alignKey) && GivenAlignment(m.metas, alignKey) > 0
    && forall k {:trigger m.tensors[k]} :: 0 <= k < |m.tensors| ==> ProperTensor(m.tensors[k])
  }

  lemma {:induction false} AlignmentIsGiven(metas: seq<Meta>, alignKey: seq<byte>)
    requires ProperMetas(metas, alignKey)
    ensures AlignmentIsNumber(Said(metas), alignKey)
    ensures Alignment(Said(metas), alignKey) == GivenAlignment(metas, alignKey)
  {
    if metas != [] {
      var n := |metas| - 1;
      AlignmentIsGiven(metas[..n], alignKey);
      var m := metas[n];
      assert Said(metas)[..n] == Said(metas[..n]);
      assert Said(metas)[n] == Pair(m.key, KindOf(m.value), Bytes(m.value));
    }
  }

  /** What n lacks to a multiple of the alignment. */
  function Fill(n: nat, align: nat): (k: nat)
    requires align > 0
  {
    if n == 0 then 0 else if n <= align then align - n else Fill(n - align, align)
  }

  lemma NotNegative(k: nat, a: nat)
    ensures k * a >= 0
  {
  }

  lemma Multiples(k: int, a: int)
    requires a > 0
    ensures (k > 0 ==> k * a >= a) && (k < 0 ==> k * a <= -a)
  {
    if k > 0 {
      NotNegative(k - 1, a);
      assert k * a == (k - 1) * a + a;
    } else if k < 0 {
      NotNegative(-k - 1, a);
      assert k * a == -((-k - 1) * a) - a;
    }
  }

  lemma OneMoreTime(x: nat, a: nat)
    requires a > 0
    ensures (x + a) / a == x / a + 1
  {
    var d, e := x / a, (x + a) / a;
    assert x == d * a + x % a && x + a == e * a + (x + a) % a;
    assert (e - d - 1) * a == e * a - d * a - a;
    Multiples(e - d - 1, a);
  }

  lemma RoundUpStep(n: nat, align: nat, q: nat)
    requires align > 0 && n >= align && q == (n - align + align - 1) / align
    ensures RoundUp(n, align) == RoundUp(n - align, align) + align
  {
    OneMoreTime(n - 1, align);
    assert (n + align - 1) / align == q + 1;
    assert (q + 1) * align == q * align + align;
  }

  lemma RoundUpFirst(align: nat)
    requires align > 0
    ensures RoundUp(0, align) == 0
  {
    assert (align - 1) / align == 0;
  }

  lemma RoundUpSmall(n: nat, align: nat)
    requires 0 < n <= align
    ensures RoundUp(n, align) == align
  {
    OneMoreTime(n - 1, align);
    assert (n - 1) / align == 0;
  }

  lemma {:induction false} FillRoundsUp(n: nat, align: nat)
    requires align > 0
    ensures RoundUp(n, align) == n + Fill(n, align)
    decreases n
  {
    if n == 0 {
      RoundUpFirst(align);
    } else if n <= align {
      RoundUpSmall(n, align);
    } else {
      FillRoundsUp(n - align, align);
      RoundUpStep(n, align, (n - align + align - 1) / align);
    }
  }

  function Opening(m: Model): (s: seq<byte>)
    ensures |s| == 24
  {
    [71, 71, 85, 70] + (Little(m.version, 4) + (Little(|m.tensors|, 8) + Little(|m.metas|, 8)))
  }

  /** The counts, the pairs, the tensor entries. */
  function Header(m: Model): seq<byte> {
    Opening(m) + (Flat(MetaItems(m.metas)) + Flat(TensorItems(m.tensors)))
  }

  /** The whole file: the header, filled up, and the data. */
  function Written(m: Model, alignKey: seq<byte>): seq<byte>
    requires ProperModel(m, alignKey)
  {
    Header(m) + (Zeros(Fill(|Header(m)|, GivenAlignment(m.metas, alignKey))) + m.data)
  }

  function LayoutOf(m: Model): Layout {
    var ps, ts := MetaItems(m.metas), TensorItems(m.tensors);
    Layout(m.version, |m.tensors|, |m.metas|, Taken(ps, |Flat(ps)|), Taken(ts, |Flat(ts)|))
  }

  lemma OpeningReads(m: Model, rest: seq<byte>)
    requires m.version < HALF && |m.tensors| < WORD && |m.metas| < WORD
    ensures var s := Opening(m) + rest;
            && s[..4] == MagicWord() && LittleEndian.Value(s[4..8]) == m.version
            && LittleEndian.Value(s[8..16]) == |m.tensors| && LittleEndian.Value(s[16..24]) == |m.metas|
            && s[24..] == rest
  {
    FrontSplits([71, 71, 85, 70], Little(m.version, 4), Little(|m.tensors|, 8), Little(|m.metas|, 8), rest);
    FourBytes(m.version);
    EightBytes(|m.tensors|);
    EightBytes(|m.metas|);
  }

  lemma Suffixes(a: seq<byte>, ps: seq<byte>, ts: seq<byte>, rest: seq<byte>)
    ensures var s, u := a + (ps + ts) + rest, ps + (ts + rest);
            s == a + u && s[|a|..] == u && s[|a| + |ps|..] == ts + rest
  {
    var u := ps + (ts + rest);
    assert a + (ps + ts) + rest == a + u;
    assert (a + u)[|a|..] == u && (a + u)[|a| + |ps|..] == ts + rest;
  }

  lemma PartsRead(f: Length, g: Length, opening: seq<byte>, ps: seq<byte>, ts: seq<byte>, rest: seq<byte>, l: Layout,
                  s: seq<byte>)
    requires |opening| == 24 && s == opening + (ps + ts) + rest && l.pairs.used == |ps|
    requires var t := opening + (ps + (ts + rest));
             && t[..4] == MagicWord() && LittleEndian.Value(t[4..8]) == l.version
             && LittleEndian.Value(t[8..16]) == l.tensorCount && LittleEndian.Value(t[16..24]) == l.pairCount
    requires ReadItems(f, ps + (ts + rest), l.pairCount) == Some(l.pairs)
    requires ReadItems(g, ts + rest, l.tensorCount) == Some(l.tensors)
    ensures ReadLayout(f, g, s) == Some(l)
  {
    var u := ps + (ts + rest);
    Suffixes(opening, ps, ts, rest);
    LayoutIs(f, g, s, u, ts + rest, l);
  }

  /** Any bytes behind a written header leave its layout as it is. */
  lemma HeaderReadsBack(f: Length, g: Length, m: Model, alignKey: seq<byte>, rest: seq<byte>)
    requires f == PairLength && g == TensorLength && ProperModel(m, alignKey)
    ensures ReadLayout(f, g, Header(m) + rest) == Some(LayoutOf(m))
  {
    var ps, ts := MetaItems(m.metas), TensorItems(m.tensors);
    MetasDelimit(f, m.metas);
    TensorsDelimit(g, m.tensors);
    ItemsRead(f, ps, Flat(ts) + rest);
    ItemsRead(g, ts, rest);
    OpeningReads(m, Flat(ps) + (Flat(ts) + rest));
    PartsRead(f, g, Opening(m), Flat(ps), Flat(ts), rest, LayoutOf(m), Header(m) + rest);
  }

  lemma WrittenIsFileOf(m: Model, alignKey: seq<byte>)
    requires ProperModel(m, alignKey)
    ensures Written(m, alignKey) == FileOf(Header(m), GivenAlignment(m.metas, alignKey), m.data)
  {
    FillRoundsUp(|Header(m)|, GivenAlignment(m.metas, alignKey));
  }

  /** What a written file says. */
  function DocOfModel(m: Model, alignKey: seq<byte>): Doc {
    Doc(m.version, Said(m.metas), TensorItems(m.tensors), GivenAlignment(m.metas, alignKey), m.data)
  }

  /** A file that was written is well formed and reads back as what it was to say. */
  lemma WrittenReads(f: Length, g: Length, m: Model, alignKey: seq<byte>)
    requires f == PairLength && g == TensorLength && ProperModel(m, alignKey)
    ensures var file := Written(m, alignKey);
            && ReadLayout(f, g, file) == Some(LayoutOf(m))
            && Readable(f, g, file, alignKey) && WellFormed(f, g, file, alignKey)
            && Parse(f, g, file, alignKey) == DocOfModel(m, alignKey)
  {
    var file, align := Written(m, alignKey), GivenAlignment(m.metas, alignKey);
    HeaderReadsBack(f, g, m, alignKey, Zeros(Fill(|Header(m)|, align)) + m.data);
    PairsAreSaid(m.metas);
    AlignmentIsGiven(m.metas, alignKey);
    WrittenIsFileOf(m, alignKey);
    BlobStays(Header(m), align, m.data);
    LayoutSays(f, g, file, LayoutOf(m), alignKey, Said(m.metas), align, |Header(m)|);
  }

  /** The same with one number more. */
  function OneNumberMore(m: Model, key: seq<byte>, value: nat): Model {
    m.(metas := m.metas + [Meta(key, One(UInt32, Little(value, 4)))])
  }

  lemma NewPairIsMeta(key: seq<byte>, value: nat)
    ensures MetaBytes(Meta(key, One(UInt32, Little(value, 4)))) == NewPair(key, value)
  {
    var kind, number := Little(4, 4), Little(value, 4);
    assert Counted(key) + (kind + number) == Little(|key|, 8) + (key + (kind + number));
  }

  lemma OneItemMore(m: Model, key: seq<byte>, value: nat)
    ensures var next := OneNumberMore(m, key, value);
            && Flat(MetaItems(next.metas)) == Flat(MetaItems(m.metas)) + NewPair(key, value)
            && Opening(next) == FrontOf(m.version, |m.tensors|, |m.metas|)
            && Header(next) == FrontOf(m.version, |m.tensors|, |m.metas|)
                               + (Flat(MetaItems(m.metas)) + (NewPair(key, value) + Flat(TensorItems(m.tensors))))
  {
    var meta := Meta(key, One(UInt32, Little(value, 4)));
    var next, ps := OneNumberMore(m, key, value), MetaItems(m.metas);
    assert next.metas[..|m.metas|] == m.metas;
    assert MetaItems(next.metas) == ps + [MetaBytes(meta)];
    assert (ps + [MetaBytes(meta)])[..|ps|] == ps;
    NewPairIsMeta(key, value);
    assert Flat(ps) + NewPair(key, value) + Flat(TensorItems(m.tensors))
        == Flat(ps) + (NewPair(key, value) + Flat(TensorItems(m.tensors)));
  }

  lemma SliceParts(a: seq<byte>, ps: seq<byte>, ts: seq<byte>, rest: seq<byte>, s: seq<byte>)
    requires s == a + (ps + ts) + rest
    ensures s[|a|..|a| + |ps|] == ps && s[|a| + |ps|..|a| + |ps| + |ts|] == ts
  {
    assert s == a + (ps + (ts + rest));
    Slices(a, ps, ts + rest);
    assert s[|a| + |ps|..] == ts + rest;
    assert s[|a| + |ps|..][..|ts|] == s[|a| + |ps|..|a| + |ps| + |ts|];
  }

  /** The header with one pair more, from the parts of a header that was written. */
  lemma NewHeaderIs(m: Model, key: seq<byte>, value: nat, rest: seq<byte>)
    ensures 24 + LayoutOf(m).pairs.used + LayoutOf(m).tensors.used == |Header(m)|
    ensures NewHeader(Header(m) + rest, LayoutOf(m), key, value) == Header(OneNumberMore(m, key, value))
  {
    OneItemMore(m, key, value);
    SliceParts(Opening(m), Flat(MetaItems(m.metas)), Flat(TensorItems(m.tensors)), rest, Header(m) + rest);
  }

  lemma OneMoreIsProper(m: Model, alignKey: seq<byte>, key: seq<byte>, value: nat)
    requires ProperModel(m, alignKey) && key != alignKey && |key| < WORD && |m.metas| + 1 < WORD
    ensures ProperModel(OneNumberMore(m, key, value), alignKey)
    ensures GivenAlignment(OneNumberMore(m, key, value).metas, alignKey) == GivenAlignment(m.metas, alignKey)
  {
    var next := OneNumberMore(m, key, value);
    assert next.metas[..|m.metas|] == m.metas;
  }

  /** Adding a key to a file that was written gives, byte for byte, the file that would have been written
    * with that pair last. */
  lemma AddingIsWriting(m: Model, alignKey: seq<byte>, key: seq<byte>, value: nat)
    requires ProperModel(m, alignKey) && key != alignKey && |key| < WORD && |m.metas| + 1 < WORD
    ensures var l, next := LayoutOf(m), OneNumberMore(m, key, value);
            && ProperModel(next, alignKey)
            && 24 + l.pairs.used + l.tensors.used <= |Written(m, alignKey)|
            && NewFile(Written(m, alignKey), l, GivenAlignment(m.metas, alignKey), key, value)
               == Written(next, alignKey)
  {
    var align, next, l := GivenAlignment(m.metas, alignKey), OneNumberMore(m, key, value), LayoutOf(m);
    var fill := Zeros(Fill(|Header(m)|, align)) + m.data;
    OneMoreIsProper(m, alignKey, key, value);
    NewHeaderIs(m, key, value, fill);
    WrittenIsFileOf(m, alignKey);
    WrittenIsFileOf(next, alignKey);
    BlobStays(Header(m), align, m.data);
  }

  predicate Names(m: Model, key: seq<byte>) {
    exists k :: 0 <= k < |m.metas| && m.metas[k].key == key
  }

  lemma {:induction false} SaidKeys(metas: seq<Meta>, key: seq<byte>)
    ensures HasKey(Said(metas), key) <==> exists k :: 0 <= k < |metas| && metas[k].key == key
  {
    if metas != [] {
      var n := |metas| - 1;
      SaidKeys(metas[..n], key);
      assert Said(metas)[n].key == metas[n].key;
      assert forall k :: 0 <= k < n ==> Said(metas)[k] == Said(metas[..n])[k] && metas[k] == metas[..n][k];
    }
  }

  lemma ExpectedIs(l: Layout, file: seq<byte>, alignKey: seq<byte>, key: seq<byte>, value: nat, pairs: seq<Pair>,
                   align: nat, out: seq<byte>)
    requires 24 + l.pairs.used + l.tensors.used <= |file| && pairs == Pairs(l.pairs.items)
    requires align == Alignment(pairs, alignKey) > 0 && !GgufScript.Unpackable(l, key, value)
    requires out == NewFile(file, l, align, key, value)
    ensures GgufScript.Expected(l, file, alignKey, key, value)
            == if HasKey(pairs, key) then GgufScript.Unchanged else GgufScript.Written(out)
  {
  }

  /** So the script leaves a file alone that names the key, and makes of any other the file that would have
    * been written with the key. */
  lemma ScriptWrites(m: Model, alignKey: seq<byte>, key: seq<byte>, value: nat)
    requires ProperModel(m, alignKey) && key != alignKey && |key| < WORD && |m.metas| + 1 < WORD && value < HALF
    ensures var file, l := Written(m, alignKey), LayoutOf(m);
            && 24 + l.pairs.used + l.tensors.used <= |file| && ProperModel(OneNumberMore(m, key, value), alignKey)
            && GgufScript.Expected(l, file, alignKey, key, value)
               == if Names(m, key) then GgufScript.Unchanged
                  else GgufScript.Written(Written(OneNumberMore(m, key, value), alignKey))
  {
    PairsAreSaid(m.metas);
    AlignmentIsGiven(m.metas, alignKey);
    SaidKeys(m.metas, key);
    AddingIsWriting(m, alignKey, key, value);
    ExpectedIs(LayoutOf(m), Written(m, alignKey), alignKey, key, value, Said(m.metas),
               GivenAlignment(m.metas, alignKey), Written(OneNumberMore(m, key, value), alignKey));
  }
}
