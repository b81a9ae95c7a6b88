/** The embedding cache: its save and load loops over an array of entries. */
module EmbedCache {
  import opened Statuses
  import opened Utf8
  import opened LittleEndian
  import opened Basics
  import opened EmbedFormat
  import opened EmbedRoundTrip

  // ---------------------------------------------------------------- vectors in a host's memory

  function Reversed(m: seq<byte>): seq<byte>
    requires |m| == 4
  {
    [m[3], m[2], m[1], m[0]]
  }

  /** How a host lays out a 32-bit pattern in memory. */
  function Memory(n: nat, littleEndian: bool): (m: seq<byte>)
    ensures |m| == 4
  {
    if littleEndian then Little(n, 4) else Reversed(Little(n, 4))
  }

  /** The 32-bit pattern that a host reads from memory. */
  function Fetch(m: seq<byte>, littleEndian: bool): nat
    requires |m| == 4
  {
    if littleEndian then Value(m) else Value(Reversed(m))
  }

  function MemoryOf(vec: seq<nat>, littleEndian: bool): (m: seq<byte>)
    ensures |m| == 4 * |vec|
  {
    if vec == [] then [] else Memory(vec[0], littleEndian) + MemoryOf(vec[1..], littleEndian)
  }

  function FetchAll(m: seq<byte>, littleEndian: bool, dim: nat): (vec: seq<nat>)
    requires |m| == 4 * dim
    ensures |vec| == dim
  {
    if dim == 0 then [] else [Fetch(m[..4], littleEndian)] + FetchAll(m[4..], littleEndian, dim - 1)
  }

  lemma {:induction false} BytesRoundTrip(m: seq<byte>)
    ensures Little(Value(m), |m|) == m
  {
    if m != [] {
      var rest := Value(m[1..]);
      BytesRoundTrip(m[1..]);
      LowByte(m[0], rest);
      assert m == [m[0]] + m[1..];
    }
  }

  lemma LowByte(b: byte, rest: nat)
    ensures (b + 256 * rest) % 256 == b && (b + 256 * rest) / 256 == rest
  {
  }

  lemma FetchStored(n: nat, littleEndian: bool)
    ensures Little(Fetch(Memory(n, littleEndian), littleEndian), 4) == Little(n, 4)
  {
    var l := Little(n, 4);
    assert l == [l[0], l[1], l[2], l[3]] == Reversed(Reversed(l));
    BytesRoundTrip(l);
  }

  /** A vector laid out in memory has the file bytes of its patterns, on either kind of host. */
  lemma {:induction false} StoredBytes(vec: seq<nat>, littleEndian: bool)
    ensures VectorBytes(FetchAll(MemoryOf(vec, littleEndian), littleEndian, |vec|)) == VectorBytes(vec)
  {
    if vec != [] {
      var first, rest := Memory(vec[0], littleEndian), MemoryOf(vec[1..], littleEndian);
      assert (first + rest)[..4] == first && (first + rest)[4..] == rest;
      FetchStored(vec[0], littleEndian);
      StoredBytes(vec[1..], littleEndian);
    }
  }

  /** On a little-endian host memory is the file bytes already. */
  lemma {:induction false} LittleHostsCopy(m: seq<byte>, dim: nat)
    requires |m| == 4 * dim
    ensures VectorBytes(FetchAll(m, true, dim)) == m
  {
    if dim > 0 {
      BytesRoundTrip(m[..4]);
      LittleHostsCopy(m[4..], dim - 1);
      assert m == m[..4] + m[4..];
    }
  }

  lemma {:induction false} FileIsMemory(s: seq<byte>, dim: nat)
    requires |s| >= 4 * dim
    ensures FetchAll(s[..4 * dim], true, dim) == ReadVector(dim, s)
  {
    if dim > 0 {
      assert s[..4 * dim][..4] == s[..4] && s[..4 * dim][4..] == s[4..][..4 * (dim - 1)];
      FileIsMemory(s[4..], dim - 1);
    }
  }

  lemma FourBytesFit(m: seq<byte>)
    requires |m| == 4
    ensures Value(m) < HALF
  {
    assert Power(4) == HALF;
    ValueIsBounded(m);
  }

  lemma {:induction false} FetchMore(m: seq<byte>, littleEndian: bool, dim: nat, n: nat)
    requires |m| == 4 * dim && n < HALF
    ensures FetchAll(m + Memory(n, littleEndian), littleEndian, dim + 1) == FetchAll(m, littleEndian, dim) + [n]
    decreases dim
  {
    var next, all := Memory(n, littleEndian), m + Memory(n, littleEndian);
    if dim == 0 {
      var l := Little(n, 4);
      assert all == next && all[..4] == next && l == [l[0], l[1], l[2], l[3]];
      FourBytes(n);
    } else {
      assert all[..4] == m[..4] && all[4..] == m[4..] + next;
      FetchMore(m[4..], littleEndian, dim - 1, n);
    }
  }

  class Cache {
    const entries: array<Entry>
    const littleEndian: bool
    var dim: int

    ghost predicate Valid()
      reads this, entries
    {
      entries.Length < WORD && dim < HALF && (dim > 0 ==> AllSound(entries[..], dim))
    }

    constructor (entries: array<Entry>, littleEndian: bool)
      requires entries.Length < WORD
      ensures Valid() && this.entries == entries && dim == 0
    {
      this.entries, this.littleEndian, dim := entries, littleEndian, 0;
    }

    /** A row of memory as file bytes: copied on a little-endian host, pattern by pattern on another. */
    method EncodeVector(memory: seq<byte>, dim: nat) returns (s: seq<byte>)
      requires |memory| == 4 * dim
      ensures s == VectorBytes(FetchAll(memory, littleEndian, dim))
    {
      if littleEndian {
        LittleHostsCopy(memory, dim);
        return memory;
      }
      s := [];
      ghost var whole := VectorBytes(FetchAll(memory, false, dim));
      for i := 0 to dim
        invariant s + VectorBytes(FetchAll(memory[4 * i..], false, dim - i)) == whole
      {
        var bits := Fetch(memory[4 * i..4 * i + 4], false);
        assert memory[4 * i..][..4] == memory[4 * i..4 * i + 4] && memory[4 * i..][4..] == memory[4 * (i + 1)..];
        Together(s, Little(bits, 4), VectorBytes(FetchAll(memory[4 * (i + 1)..], false, dim - (i + 1))));
        s := s + Little(bits, 4);
      }
    }

    /** File bytes as a row of memory, from which the host reads the patterns of the file. */
    method DecodeVector(src: seq<byte>, dim: nat) returns (memory: seq<byte>)
      requires |src| >= 4 * dim
      ensures |memory| == 4 * dim && FetchAll(memory, littleEndian, dim) == ReadVector(dim, src)
    {
      if littleEndian {
        FileIsMemory(src, dim);
        return src[..4 * dim];
      }
      memory := [];
      for i := 0 to dim
        invariant |memory| == 4 * i
        invariant FetchAll(memory, false, i) + ReadVector(dim - i, src[4 * i..]) == ReadVector(dim, src)
      {
        var bits := Value(src[4 * i..4 * i + 4]);
        ghost var rest := src[4 * i..];
        assert rest[..4] == src[4 * i..4 * i + 4] && rest[4..] == src[4 * (i + 1)..];
        FourBytesFit(src[4 * i..4 * i + 4]);
        FetchMore(memory, false, i, bits);
        Together(FetchAll(memory, false, i), [bits], ReadVector(dim - i - 1, src[4 * (i + 1)..]));
        memory := memory + Memory(bits, false);
      }
    }

    method EncodeEntry(e: Entry) returns (record: seq<byte>)
      requires Savable(e)
      ensures record == RecordBytes(RecordOf(e))
    {
      var memory := MemoryOf(e.vec.value, littleEndian);
      StoredBytes(e.vec.value, littleEndian);
      var vec := EncodeVector(memory, |e.vec.value|);
      record := e.id.uuid + (Little(QueryHash(e.query), 8) + vec);
    }

    method DecodeRecord(dim: nat, s: seq<byte>) returns (r: Record)
      requires |s| >= RecordSize(dim)
      ensures r == ReadRecord(dim, s)
    {
      var memory := DecodeVector(s[24..], dim);
      r := Record(s[..16], Value(s[16..24]), FetchAll(memory, littleEndian, dim));
    }

    method Count() returns (count: nat)
      ensures count == |Saved(entries[..], entries.Length)|
    {
      count := 0;
      ghost var es := entries[..];
      for i := 0 to entries.Length
        invariant count == |Saved(es, i)|
      {
        if Savable(entries[i]) { count := count + 1; }
      }
    }

    method AppendAll(head: seq<byte>) returns (snap: seq<byte>)
      ensures snap == head + Body(Saved(entries[..], entries.Length))
    {
      snap := head;
      ghost var es := entries[..];
      for i := 0 to entries.Length
        invariant snap == head + Body(Saved(es, i))
      {
        SavedNext(es, i);
        if Savable(entries[i]) {
          var record := EncodeEntry(entries[i]);
          Together(head, Body(Saved(es, i)), record);
          snap := snap + record;
        }
      }
    }

    /** Header and records into one buffer, then the file in one atomic write. */
    method Save(modelDim: int, hash: seq<byte>, write: Status) returns (e: Status, file: Option<seq<byte>>)
      requires Valid() && |hash| == 32
      ensures var d := if modelDim > 0 then modelDim else dim;
              && e == (if d > 0 then write else OK)
              && file == if d > 0 && write == OK then Some(File(entries[..], d, hash)) else None
    {
      var d := if modelDim > 0 then modelDim else dim;
      if d <= 0 { return OK, None; }
      var count := Count();
      var snap := AppendAll(Head(d, count, hash));
      return write, if write == OK then Some(snap) else None;
    }

    method FindSlot(id: Id) returns (j: nat)
      ensures j == Slot(entries[..], id, 0)
    {
      j := 0;
      ghost var es := entries[..];
      while j < entries.Length && !(entries[j].vec.None? && entries[j].id == id)
        invariant j <= |es| && Slot(es, id, j) == Slot(es, id, 0)
      {
        j := j + 1;
      }
    }

    method AttachOne(r: Record)
      modifies entries
      ensures entries[..] == Attach(old(entries[..]), r)
    {
      var j := FindSlot(Canonical(r.uuid));
      if j < entries.Length && r.fnv == QueryHash(entries[j].query) {
        entries[j] := entries[j].(vec := Some(r.vec));
      }
    }

    /** A missing, unreadable, foreign or truncated file attaches nothing and is no error. */
    method Load(modelDim: int, hash: seq<byte>, read: Option<seq<byte>>) returns (e: Status)
      requires entries.Length < WORD && (read.Some? ==> |read.value| < WORD)
      modifies this`dim, entries
      ensures e == OK && dim == if modelDim > 0 then modelDim else old(dim)
      ensures var rs := if read.None? then None else Parse(read.value, modelDim, hash);
              entries[..] == if rs.None? then old(entries[..]) else AttachAll(old(entries[..]), rs.value)
    {
      if modelDim > 0 { dim := modelDim; }
      if read.None? { return OK; }
      var data := read.value;
      if |data| < HEADER || data[..4] != Magic() { return OK; }
      if Value(data[4..8]) != VERSION { return OK; }
      if modelDim <= 0 || Value(data[8..12]) != modelDim { return OK; }
      var count := Value(data[12..20]);
      if AllZero(hash) { return OK; }
      if data[20..52] != hash { return OK; }
      if !LengthAdmits(|data|, count, modelDim) { return OK; }
      LengthCheckIsExact(|data|, count, modelDim);
      ReadBody(count, modelDim, data[HEADER..]);
      e := OK;
    }

    method ReadBody(count: nat, d: nat, data: seq<byte>)
      requires |data| == count * RecordSize(d)
      modifies entries
      ensures entries[..] == AttachAll(old(entries[..]), ReadRecords(count, d, data))
    {
      var rest := data;
      ghost var was, all := entries[..], ReadRecords(count, d, data);
      ghost var done: seq<Record> := [];
      for i := 0 to count
        invariant |rest| == (count - i) * RecordSize(d)
        invariant done + ReadRecords(count - i, d, rest) == all
        invariant entries[..] == AttachAll(was, done)
      {
        TakeOne(count - i, RecordSize(d));
        var r := DecodeRecord(d, rest);
        AttachOne(r);
        AttachMore(was, done, r);
        Appended(done, r, ReadRecords(count - i - 1, d, rest[RecordSize(d)..]));
        done := done + [r];
        rest := rest[RecordSize(d)..];
      }
      assert done == all;
    }
  }

  lemma AttachMore(es: seq<Entry>, done: seq<Record>, r: Record)
    ensures AttachAll(es, done + [r]) == Attach(AttachAll(es, done), r)
  {
    assert (done + [r])[..|done|] == done;
  }

  lemma Appended(done: seq<Record>, r: Record, rest: seq<Record>)
    ensures done + ([r] + rest) == (done + [r]) + rest
  {
  }

  lemma SavedNext(es: seq<Entry>, i: nat)
    requires i < |es|
    ensures Body(Saved(es, i + 1))
            == if Savable(es[i]) then Body(Saved(es, i)) + RecordBytes(RecordOf(es[i])) else Body(Saved(es, i))
  {
    if Savable(es[i]) {
      BodyNext(Saved(es, i), RecordOf(es[i]));
    } else {
      assert Saved(es, i + 1) == Saved(es, i);
    }
  }

  lemma {:induction false} BodyNext(rs: seq<Record>, r: Record)
    ensures Body(rs + [r]) == Body(rs) + RecordBytes(r)
  {
    if rs == [] {
      assert rs + [r] == [r] && [r][1..] == [];
      assert Body([r]) == RecordBytes(r) + [];
    } else {
      BodyNext(rs[1..], r);
      assert (rs + [r])[1..] == rs[1..] + [r];
      Together(RecordBytes(rs[0]), Body(rs[1..]), RecordBytes(r));
    }
  }

  /** Save, restart, load: every savable vector is back with its own entry, bit for bit, and
    * nothing else is attached. */
  method SaveAndLoad(cache: Cache, reopened: Cache, modelDim: int, hash: seq<byte>)
    requires 0 < modelDim < HALF && |hash| == 32 && !AllZero(hash)
    requires cache.entries != reopened.entries && cache.Valid() && AllSound(cache.entries[..], modelDim)
    requires DistinctIds(cache.entries[..]) && AllSpelledOut(cache.entries[..])
    requires reopened.entries[..] == AllBare(cache.entries[..])
    requires |File(cache.entries[..], modelDim, hash)| < WORD
    modifies reopened, reopened.entries
    ensures AllKept(old(cache.entries[..]), reopened.entries[..])
  {
    ghost var es := cache.entries[..];
    var saved, file := cache.Save(modelDim, hash, OK);
    FileRoundTrip(es, modelDim, hash);
    VectorsComeBack(es);
    var loaded := reopened.Load(modelDim, hash, file);
  }
}
