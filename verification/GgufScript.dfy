/** The script that adds a metadata key to a GGUF file: a cursor moved over the file, then the
  * new file written piece by piece. */
module GgufScript {
  import opened Statuses
  import opened Utf8
  import opened LittleEndian
  import opened Items
  import opened GgufFormat
  import opened GgufRewrite

  /** The file is left alone, replaced, or an exception leaves it alone. */
  datatype Outcome = Unchanged | Written(file: seq<byte>) | Failed

  lemma PairAt(s: seq<byte>, n: nat, a: nat)
    requires PairLength(s) == Some(n) && SkipString(s) == Some(a)
    ensures a + 4 <= n <= |s| && PairOf(s[..n]) == Pair(s[8..a], Value(s[a..a + 4]), s[a + 4..n])
    ensures SkipValue(s[a + 4..], Value(s[a..a + 4])) == Some(n - (a + 4))
  {
    var b := s[..n];
    assert b[..8] == s[..8] && b[8..a] == s[8..a] && b[a..a + 4] == s[a..a + 4] && b[a + 4..] == s[a + 4..n];
  }

  /** A pair in a file, by positions. */
  lemma PairInFile(data: seq<byte>, from: nat, n: nat, a: nat, at: nat, s: seq<byte>)
    requires from <= |data| && s == data[from..] && PairLength(s) == Some(n) && SkipString(s) == Some(a)
    requires at == from + a + 4
    ensures at <= from + n <= |data| && a + 4 <= |s|
    ensures PairOf(s[..n]) == Pair(s[8..a], Value(s[a..a + 4]), data[at..from + n])
    ensures SkipValue(data[at..], Value(s[a..a + 4])) == Some(from + n - at)
  {
    PairAt(s, n, a);
    assert data[at..] == s[a + 4..] && data[at..from + n] == s[a + 4..n];
  }

  class Script {
    const data: seq<byte>
    var pos: nat

    constructor (data: seq<byte>)
      ensures this.data == data && pos == 0
    {
      this.data, pos := data, 0;
    }

    /** Reading past the end gives what there is. */
    method Read(n: nat) returns (s: seq<byte>)
      requires pos <= |data|
      modifies this`pos
      ensures old(pos) <= pos <= |data| && s == data[old(pos)..pos]
      ensures pos == if old(pos) + n <= |data| then old(pos) + n else |data|
    {
      var end := if pos + n <= |data| then pos + n else |data|;
      s := data[pos..end];
      pos := end;
    }

    /** Unpacking fewer bytes than asked for is an exception. */
    method Number(width: nat) returns (n: Option<nat>)
      requires pos <= |data|
      modifies this`pos
      ensures old(pos) <= pos <= |data| && (n.Some? <==> old(pos) + width <= |data|)
      ensures n.Some? ==> pos == old(pos) + width && n.value == Value(data[old(pos)..pos])
    {
      var s := Read(width);
      n := if |s| < width then None else Some(Value(s));
    }

    method ReadString() returns (s: Option<seq<byte>>)
      requires pos <= |data|
      modifies this`pos
      ensures old(pos) <= pos <= |data| && (s.Some? ==> old(pos) + 8 <= pos)
      ensures var k := SkipString(data[old(pos)..]);
              k.Some? ==> pos == old(pos) + k.value && s == Some(data[old(pos)..][8..k.value])
    {
      ghost var rest := data[pos..];
      var n := Number(8);
      if n.None? { return None; }
      assert data[old(pos)..pos] == rest[..8];
      ghost var at := pos;
      var text := Read(n.value);
      assert SkipString(rest).Some? ==> rest[8..SkipString(rest).value] == data[at..pos];
      return Some(text);
    }

    /** Move past a value of a kind; an unknown kind is an exception. */
    method SkipOne(kind: nat) returns (ok: bool)
      requires pos <= |data|
      modifies this`pos
      ensures old(pos) <= pos <= |data|
      ensures var k := SkipValue(data[old(pos)..], kind); k.Some? ==> ok && pos == old(pos) + k.value
      decreases |data| - pos, 1
    {
      if kind == TYPE_STRING {
        var s := ReadString();
        return s.Some?;
      }
      if kind == TYPE_ARRAY {
        ok := SkipArray();
        return;
      }
      if Size(kind).None? { return false; }
      var s := Read(Size(kind).value);
      ok := true;
    }

    method SkipArray() returns (ok: bool)
      requires pos <= |data|
      modifies this`pos
      ensures old(pos) <= pos <= |data|
      ensures var k := SkipValue(data[old(pos)..], TYPE_ARRAY); k.Some? ==> ok && pos == old(pos) + k.value
      decreases |data| - pos, 0
    {
      ghost var s := data[pos..];
      var kind, n := ReadArrayHead();
      if n.None? { return false; }
      assert data[pos..] == s[12..];
      ok := SkipRun(kind, n.value);
    }

    method ReadArrayHead() returns (kind: nat, n: Option<nat>)
      requires pos <= |data|
      modifies this`pos
      ensures old(pos) <= pos <= |data| && (n.Some? <==> old(pos) + 12 <= |data|)
      ensures var s := data[old(pos)..];
              n.Some? ==> pos == old(pos) + 12 && kind == Value(s[..4]) && n.value == Value(s[4..12])
    {
      ghost var s, start := data[pos..], pos;
      var k := Number(4);
      if k.None? { return 0, None; }
      assert data[start..start + 4] == s[..4];
      kind := k.value;
      n := Number(8);
      if n.Some? { assert data[start + 4..start + 12] == s[4..12]; }
    }

    method SkipRun(kind: nat, n: nat) returns (ok: bool)
      requires pos <= |data|
      modifies this`pos
      ensures old(pos) <= pos <= |data|
      ensures var k := SkipMany(data[old(pos)..], kind, n); k.Some? ==> ok && pos == old(pos) + k.value
      decreases |data| - pos, 2
    {
      var start := pos;
      ghost var total := SkipMany(data[start..], kind, n);
      for i := 0 to n
        invariant start <= pos <= |data|
        invariant total.Some? ==> pos <= start + total.value
                                  && SkipMany(data[pos..], kind, n - i) == Some(start + total.value - pos)
      {
        ghost var at := pos;
        var here := SkipOne(kind);
        assert data[at..][pos - at..] == data[pos..];
        if !here { return false; }
      }
      ok := true;
    }

    /** A metadata pair's key and kind, the cursor on its value. */
    method ReadKeyAndKind() returns (key: Option<seq<byte>>, kind: nat)
      requires pos <= |data|
      modifies this`pos
      ensures old(pos) <= pos <= |data| && (key.Some? ==> old(pos) < pos)
      ensures var s := data[old(pos)..]; var a := SkipString(s);
              a.Some? && a.value + 4 <= |s| ==>
                pos == old(pos) + a.value + 4 && key == Some(s[8..a.value]) && kind == Value(s[a.value..a.value + 4])
    {
      ghost var s := data[pos..];
      key := ReadString();
      if key.None? { return None, 0; }
      ghost var a := SkipString(s);
      ghost var at := pos;
      var k := Number(4);
      if k.None? { return None, 0; }
      kind := k.value;
      if a.Some? && a.value + 4 <= |s| { assert data[at..pos] == s[a.value..a.value + 4]; }
    }

    /** One metadata pair: its key, where its value starts, and the cursor past it. */
    method ReadOnePair() returns (key: Option<seq<byte>>, at: nat)
      requires pos <= |data|
      modifies this`pos
      ensures old(pos) <= pos <= |data| && (key.Some? ==> at <= |data| && old(pos) < at)
      ensures var s := data[old(pos)..]; var n := PairLength(s);
              n.Some? ==> pos == old(pos) + n.value && old(pos) <= at <= pos
                          && key == Some(PairOf(s[..n.value]).key) && data[at..pos] == PairOf(s[..n.value]).value
    {
      ghost var s, from := data[pos..], pos;
      ghost var n := PairLength(s);
      if n.Some? { PairInFile(data, pos, n.value, SkipString(s).value, pos + SkipString(s).value + 4, s); }
      var kind: nat;
      key, kind := ReadKeyAndKind();
      at := pos;
      if key.None? { return; }
      var ok := SkipOne(kind);
      if !ok { return None, at; }
    }

    /** The next pair: the key looked for, or an alignment that replaces the one before. */
    method TakePair(key: seq<byte>, alignKey: seq<byte>, align: nat) returns (r: Scan)
      requires pos <= |data|
      modifies this`pos
      ensures old(pos) <= pos <= |data|
      ensures var s := data[old(pos)..]; var n := PairLength(s);
              n.Some? && (PairOf(s[..n.value]).key == alignKey ==> |PairOf(s[..n.value]).value| == 4) ==>
                && r == Step(PairOf(s[..n.value]), key, alignKey, align)
                && (r != Present ==> pos == old(pos) + n.value)
    {
      var k, at := ReadOnePair();
      if k.None? { return Broken; }
      if k.value == key { return Present; }
      if k.value != alignKey { return Absent(align); }
      pos := at;
      var a := Number(4);
      if a.None? { pos := |data|; return Broken; }
      return Absent(a.value);
    }

    /** One step of the scan over all pairs. */
    method ScanOne(key: seq<byte>, alignKey: seq<byte>, align: nat, ghost n: nat, ghost all: seq<seq<byte>>,
                   ghost done: seq<seq<byte>>, ghost rest: Taken)
      returns (step: Scan, ghost now: seq<seq<byte>>, ghost next: Taken)
      requires pos <= |data| && n > 0
      modifies this`pos
      ensures old(pos) <= pos <= |data|
      ensures InScan(data[old(pos)..], n, all, done, rest, align, key, alignKey) ==>
                && step != Broken && (step == Present ==> HasKey(Pairs(all), key))
                && (step.Absent? ==> InScan(data[pos..], n - 1, all, now, next, step.align, key, alignKey)
                                     && pos + next.used == old(pos) + rest.used)
    {
      ghost var s, from := data[pos..], pos;
      ghost var well := InScan(s, n, all, done, rest, align, key, alignKey);
      ghost var j: nat := 0;
      now, next := done, rest;
      if well {
        j, next := ScanSplit(s, n, rest);
        now := done + [s[..j]];
        NextPair(done, s[..j], next.items, all, key, alignKey);
      }
      step := TakePair(key, alignKey, align);
      if well && step.Absent? { assert data[from..][j..] == data[pos..]; }
    }

    /** Metadata pairs up to the key looked for; the last alignment counts. */
    method ScanPairs(n: nat, key: seq<byte>, alignKey: seq<byte>, ghost ts: Taken) returns (r: Scan)
      requires pos <= |data|
      modifies this`pos
      ensures old(pos) <= pos <= |data|
      ensures InScan(data[old(pos)..], n, ts.items, [], ts, 32, key, alignKey) ==>
                && (r == Present <==> HasKey(Pairs(ts.items), key))
                && (r != Present ==> r == Absent(Alignment(Pairs(ts.items), alignKey)) && pos == old(pos) + ts.used)
    {
      ghost var start, well := pos, InScan(data[pos..], n, ts.items, [], ts, 32, key, alignKey);
      ghost var done: seq<seq<byte>>, rest := [], ts;
      var align := 32;
      for i := 0 to n
        invariant start <= pos <= |data|
        invariant well ==> InScan(data[pos..], n - i, ts.items, done, rest, align, key, alignKey)
                           && start + ts.used == pos + rest.used
      {
        var step;
        step, done, rest := ScanOne(key, alignKey, align, n - i, ts.items, done, rest);
        if !step.Absent? { return step; }
        align := step.align;
      }
      if well { ScanEnds(data[pos..], ts.items, done, rest, align, key, alignKey); }
      return Absent(align);
    }

    method SkipTensor() returns (ok: bool)
      requires pos <= |data|
      modifies this`pos
      ensures old(pos) <= pos <= |data|
      ensures var n := TensorLength(data[old(pos)..]); n.Some? ==> ok && pos == old(pos) + n.value
    {
      ghost var s := data[pos..];
      var name, dims := ReadKeyAndKind();
      if name.None? { return false; }
      var rest := Read(8 * dims + 12);
      ok := true;
    }

    /** One of the entries still to come. */
    method SkipNext(ghost n: nat, ghost ts: Taken) returns (ok: bool, ghost rest: Taken)
      requires pos <= |data| && n > 0
      modifies this`pos
      ensures old(pos) <= pos <= |data|
      ensures HasTensors(data[old(pos)..], n, ts) ==>
                ok && HasTensors(data[pos..], n - 1, rest) && old(pos) + ts.used == pos + rest.used
    {
      ghost var j: nat := 0;
      rest := ts;
      if HasTensors(data[pos..], n, ts) { j, rest := TensorsSplit(data, pos, n, ts); }
      ok := SkipTensor();
    }

    method SkipTensors(n: nat, ghost ts: Taken) returns (ok: bool)
      requires pos <= |data|
      modifies this`pos
      ensures old(pos) <= pos <= |data|
      ensures HasTensors(data[old(pos)..], n, ts) ==> ok && pos == old(pos) + ts.used
    {
      ghost var start, well, rest := pos, HasTensors(data[pos..], n, ts), ts;
      for i := 0 to n
        invariant start <= pos <= |data|
        invariant well ==> HasTensors(data[pos..], n - i, rest) && start + ts.used == pos + rest.used
      {
        ok, rest := SkipNext(n - i, rest);
        if !ok { return false; }
      }
      ok := true;
    }

    /** The rest of the file, a chunk at a time. */
    method CopyRest(out: seq<byte>, chunk: nat) returns (r: seq<byte>)
      requires pos <= |data| && chunk > 0
      modifies this`pos
      ensures r == out + data[old(pos)..]
    {
      r := out;
      ghost var start := pos;
      while true
        invariant start <= pos <= |data| && r == out + data[start..pos]
        decreases |data| - pos
      {
        ghost var at := pos;
        var s := Read(chunk);
        if s == [] { break; }
        assert data[start..at] + s == data[start..pos];
        r := r + s;
      }
    }

    method NewHead(header: seq<byte>, h: Head, kvEnd: nat, key: seq<byte>, value: nat) returns (out: seq<byte>)
      requires 24 <= kvEnd <= |header|
      ensures var front := FrontOf(h.version, h.tensorCount, h.pairCount);
              out == HeaderOf(front, header[24..kvEnd], NewPair(key, value), header[kvEnd..])
    {
      out := FrontOf(h.version, h.tensorCount, h.pairCount);
      Associate(out, header[24..kvEnd], NewPair(key, value), header[kvEnd..]);
      out := out + header[24..kvEnd];
      out := out + NewPair(key, value);
      out := out + header[kvEnd..];
    }

    /** The new file, from a cursor at the end of the header. */
    method Write(h: Head, align: nat, kvEnd: nat, key: seq<byte>, value: nat) returns (out: seq<byte>)
      requires 24 <= kvEnd <= pos <= |data| && align > 0
      modifies this`pos
      ensures var front := FrontOf(h.version, h.tensorCount, h.pairCount);
              out == FileOf(HeaderOf(front, data[24..kvEnd], NewPair(key, value), data[kvEnd..old(pos)]), align,
                            BlobAt(data, old(pos), align))
    {
      var headerEnd := pos;
      var dataStart := (headerEnd + align - 1) / align * align;
      var header := data[..headerEnd];
      assert header[24..kvEnd] == data[24..kvEnd] && header[kvEnd..] == data[kvEnd..headerEnd];
      Seek(dataStart);
      assert data[pos..] == BlobAt(data, headerEnd, align);
      out := NewHead(header, h, kvEnd, key, value);
      out := Append(out, align);
    }

    method Seek(n: nat)
      modifies this`pos
      ensures pos <= |data| && data[pos..] == if n <= |data| then data[n..] else []
    {
      pos := if n <= |data| then n else |data|;
    }

    /** Padding and the rest of the file after a header. */
    method Append(header: seq<byte>, align: nat) returns (out: seq<byte>)
      requires pos <= |data| && align > 0
      modifies this`pos
      ensures out == FileOf(header, align, data[old(pos)..])
    {
      var pad := (|header| + align - 1) / align * align - |header|;
      assert pad == RoundUp(|header|, align) - |header|;
      ghost var rest := data[pos..];
      out := CopyRest(header + Zeros(pad), 0x40_0000);
      assert header + Zeros(pad) + rest == header + (Zeros(pad) + rest);
    }

    method ReadHead() returns (h: Option<Head>)
      requires pos == 0
      modifies this`pos
      ensures pos <= |data|
      ensures |data| >= 24 && data[..4] == MagicWord() ==>
                pos == 24 && h == Some(Head(Value(data[4..8]), Value(data[8..16]), Value(data[16..24])))
    {
      var magic := Read(4);
      if magic != MagicWord() { return None; }
      var version := Number(4);
      if version.None? { return None; }
      var tensorCount := Number(8);
      if tensorCount.None? { return None; }
      var pairCount := Number(8);
      if pairCount.None? { return None; }
      return Some(Head(version.value, tensorCount.value, pairCount.value));
    }

    /** Past the pairs, without the key: skip the tensor entries and write the new file. */
    method Finish(h: Head, align: nat, key: seq<byte>, value: int, ghost l: Layout) returns (o: Outcome)
      requires 24 <= pos <= |data|
      modifies this`pos
      ensures HasTensors(data[old(pos)..], h.tensorCount, l.tensors) && old(pos) == 24 + l.pairs.used
              && h == Head(l.version, l.tensorCount, l.pairCount) && 24 + l.pairs.used + l.tensors.used <= |data| ==>
                o == if align == 0 || Unpackable(l, key, value) then Failed
                     else Written(NewFile(data, l, align, key, value))
    {
      var kvEnd := pos;
      var ok := SkipTensors(h.tensorCount, l.tensors);
      if !ok || align == 0 { return Failed; }
      if |key| >= WORD || value < 0 || value >= HALF || h.pairCount + 1 >= WORD { return Failed; }
      ghost var headerEnd := pos;
      var out := Write(h, align, kvEnd, key, value);
      if h == Head(l.version, l.tensorCount, l.pairCount)
         && kvEnd == 24 + l.pairs.used && headerEnd == kvEnd + l.tensors.used {
        NewFileIs(data, l, align, key, value, kvEnd, headerEnd);
      }
      return Written(out);
    }

    /** From the end of the head on. */
    method Rewrite(h: Head, key: seq<byte>, value: int, alignKey: seq<byte>, ghost l: Layout) returns (o: Outcome)
      requires 24 == pos <= |data|
      modifies this`pos
      ensures h == Head(l.version, l.tensorCount, l.pairCount) && Ready(data, l, key, alignKey) ==>
                o == Expected(l, data, alignKey, key, value)
    {
      var scan := ScanPairs(h.pairCount, key, alignKey, l.pairs);
      if scan == Present { return Unchanged; }
      if scan == Broken { return Failed; }
      o := Finish(h, scan.align, key, value, l);
    }

    /** The whole script, on any file whose header can be read. One that has the key is left alone; one
      * that has not is rewritten, unless its alignment is zero or a number does not fit its field. */
    method AddKey(key: seq<byte>, value: int, alignKey: seq<byte>) returns (o: Outcome)
      requires pos == 0
      modifies this`pos
      ensures Readable(PairLength, TensorLength, data, alignKey) ==>
                o == Expected(ReadLayout(PairLength, TensorLength, data).value, data, alignKey, key, value)
    {
      ghost var l := Layout(0, 0, 0, Taken([], 0), Taken([], 0));
      if Readable(PairLength, TensorLength, data, alignKey) {
        l := ReadLayout(PairLength, TensorLength, data).value;
        StartsHead(PairLength, TensorLength, data, l);
        StartsScan(data, l, alignKey, key);
      }
      var h := ReadHead();
      if h.None? || pos != 24 { return Failed; }
      o := Rewrite(h.value, key, value, alignKey, l);
    }
  }

  lemma Associate(a: seq<byte>, b: seq<byte>, c: seq<byte>, d: seq<byte>)
    ensures a + b + c + d == HeaderOf(a, b, c, d)
  {
    assert a + b + c + d == a + (b + (c + d));
  }

  lemma NewFileIs(file: seq<byte>, l: Layout, align: nat, key: seq<byte>, value: nat, kvEnd: nat, headerEnd: nat)
    requires align > 0 && kvEnd == 24 + l.pairs.used && headerEnd == kvEnd + l.tensors.used <= |file|
    ensures var front := FrontOf(l.version, l.tensorCount, l.pairCount);
            NewFile(file, l, align, key, value)
            == FileOf(HeaderOf(front, file[24..kvEnd], NewPair(key, value), file[kvEnd..headerEnd]), align,
                      BlobAt(file, headerEnd, align))
  {
  }

  /** The version and the counts. */
  datatype Head = Head(version: nat, tensorCount: nat, pairCount: nat)

  /** After the head come the pairs and tensor entries of this layout. */
  ghost predicate Ready(file: seq<byte>, l: Layout, key: seq<byte>, alignKey: seq<byte>) {
    && 24 + l.pairs.used + l.tensors.used <= |file|
    && InScan(file[24..], l.pairCount, l.pairs.items, [], l.pairs, 32, key, alignKey)
    && HasTensors(file[24 + l.pairs.used..], l.tensorCount, l.tensors)
  }

  lemma StartsHead(f: Length, g: Length, file: seq<byte>, l: Layout)
    requires ReadLayout(f, g, file) == Some(l)
    ensures |file| >= 24 && file[..4] == MagicWord()
    ensures Head(l.version, l.tensorCount, l.pairCount)
            == Head(Value(file[4..8]), Value(file[8..16]), Value(file[16..24]))
  {
  }

  lemma StartsPairs(s: seq<byte>, n: nat, ts: Taken, key: seq<byte>, alignKey: seq<byte>)
    requires Scanning(s, n, ts) && AlignmentIsNumber(Pairs(ts.items), alignKey)
    ensures InScan(s, n, ts.items, [], ts, 32, key, alignKey)
  {
    assert [] + ts.items == ts.items;
  }

  /** The scan of all pairs so far: these are done, the rest follows, and no key was found. */
  ghost predicate InScan(s: seq<byte>, n: int, all: seq<seq<byte>>, done: seq<seq<byte>>, rest: Taken, align: nat,
                         key: seq<byte>, alignKey: seq<byte>) {
    && Scanning(s, n, rest) && all == done + rest.items && AlignmentIsNumber(Pairs(all), alignKey)
    && align == Alignment(Pairs(done), alignKey) && !HasKey(Pairs(done), key)
  }

  lemma ScanEnds(s: seq<byte>, all: seq<seq<byte>>, done: seq<seq<byte>>, rest: Taken, align: nat, key: seq<byte>,
                 alignKey: seq<byte>)
    requires InScan(s, 0, all, done, rest, align, key, alignKey)
    ensures rest.used == 0 && all == done
  {
  }

  ghost predicate Scanning(s: seq<byte>, n: int, rest: Taken) {
    n >= 0 && ReadItems(PairLength, s, n) == Some(rest)
  }

  lemma ScanSplit(s: seq<byte>, n: nat, ts: Taken) returns (j: nat, rest: Taken)
    requires n > 0 && Scanning(s, n, ts)
    ensures j <= |s| && PairLength(s) == Some(j) && Scanning(s[j..], n - 1, rest)
    ensures ts.items == [s[..j]] + rest.items && ts.used == j + rest.used
  {
    j, rest := ItemsSplit(PairLength, s, n, ts);
  }

  /** What one pair does to the scan. */
  function Step(p: Pair, key: seq<byte>, alignKey: seq<byte>, align: nat): Scan {
    if p.key == key then Present else if p.key == alignKey then Absent(Value(p.value)) else Absent(align)
  }

  datatype Scan = Present | Absent(align: nat) | Broken

  lemma PairsIndex(items: seq<seq<byte>>, k: nat)
    requires k < |items|
    ensures Pairs(items)[k] == PairOf(items[k])
    decreases |items|
  {
    if k < |items| - 1 { PairsIndex(items[..|items| - 1], k); }
  }

  lemma NextPair(done: seq<seq<byte>>, item: seq<byte>, rest: seq<seq<byte>>, all: seq<seq<byte>>, key: seq<byte>,
                 alignKey: seq<byte>)
    requires all == done + ([item] + rest)
    ensures all == (done + [item]) + rest
    ensures PairOf(item).key == key ==> HasKey(Pairs(all), key)
    ensures PairOf(item).key == alignKey && AlignmentIsNumber(Pairs(all), alignKey) ==>
              |PairOf(item).value| == 4 && Alignment(Pairs(done + [item]), alignKey) == Value(PairOf(item).value)
    ensures PairOf(item).key != alignKey ==>
              Alignment(Pairs(done + [item]), alignKey) == Alignment(Pairs(done), alignKey)
    ensures PairOf(item).key != key && !HasKey(Pairs(done), key) ==> !HasKey(Pairs(done + [item]), key)
  {
    PairsIndex(all, |done|);
    PairsNext(done, item);
    var before, after := Pairs(done), Pairs(done + [item]);
    assert after[..|before|] == before;
    assert Pairs(all)[|done|] == PairOf(item);
  }

  ghost predicate HasTensors(s: seq<byte>, n: int, ts: Taken) {
    n >= 0 && ReadItems(TensorLength, s, n) == Some(ts)
  }

  /** The entry at a position, and those after it. */
  lemma TensorsSplit(data: seq<byte>, from: nat, n: nat, ts: Taken) returns (j: nat, rest: Taken)
    requires from <= |data| && n > 0 && HasTensors(data[from..], n, ts)
    ensures from + j <= |data| && TensorLength(data[from..]) == Some(j) && HasTensors(data[from + j..], n - 1, rest)
    ensures ts.used == j + rest.used
  {
    j, rest := ItemsSplit(TensorLength, data[from..], n, ts);
    assert data[from..][j..] == data[from + j..];
  }

  /** The new pair or the new count does not fit its field. */
  predicate Unpackable(l: Layout, key: seq<byte>, value: int) {
    |key| >= WORD || value < 0 || value >= HALF || l.pairCount + 1 >= WORD
  }

  /** What the script does to a file whose header can be read. */
  ghost function Expected(l: Layout, file: seq<byte>, alignKey: seq<byte>, key: seq<byte>, value: int): Outcome
    requires 24 + l.pairs.used + l.tensors.used <= |file|
  {
    var align := Alignment(Pairs(l.pairs.items), alignKey);
    if HasKey(Pairs(l.pairs.items), key) then Unchanged
    else if align == 0 || Unpackable(l, key, value) then Failed
    else Written(NewFile(file, l, align, key, value))
  }

  lemma StartsScan(file: seq<byte>, l: Layout, alignKey: seq<byte>, key: seq<byte>)
    requires ReadLayout(PairLength, TensorLength, file) == Some(l)
    requires Readable(PairLength, TensorLength, file, alignKey)
    ensures Ready(file, l, key, alignKey)
  {
    HeaderParts(PairLength, TensorLength, file, l, file[24..], file[24 + l.pairs.used..]);
    StartsPairs(file[24..], l.pairCount, l.pairs, key, alignKey);
  }

  /** Running the script again on what it wrote changes nothing, whatever the key. */
  method AddTwice(data: seq<byte>, key: seq<byte>, value: int, alignKey: seq<byte>)
    returns (first: Outcome, second: Outcome)
    requires Readable(PairLength, TensorLength, data, alignKey)
    ensures first.Written? ==> second == Unchanged
  {
    var script := new Script(data);
    first := script.AddKey(key, value, alignKey);
    second := Unchanged;
    if first.Written? {
      ghost var l := ReadLayout(PairLength, TensorLength, data).value;
      ghost var d := Parse(PairLength, TensorLength, data, alignKey);
      RewriteIsPresent(data, l, alignKey, key, value, d);
      script := new Script(first.file);
      second := script.AddKey(key, value, alignKey);
    }
  }

  lemma RewriteIsPresent(data: seq<byte>, l: Layout, alignKey: seq<byte>, key: seq<byte>, value: nat, d: Doc)
    requires ReadLayout(PairLength, TensorLength, data) == Some(l)
    requires WellFormed(PairLength, TensorLength, data, alignKey)
    requires d == Parse(PairLength, TensorLength, data, alignKey) && d.align > 0
    requires !Unpackable(l, key, value)
    ensures var out := NewFile(data, l, d.align, key, value);
            && Readable(PairLength, TensorLength, out, alignKey)
            && HasKey(Pairs(ReadLayout(PairLength, TensorLength, out).value.pairs.items), key)
  {
    SecondRunFindsKey(PairLength, TensorLength, data, l, alignKey, key, value, d);
  }
}
