/** Where everything lies in a file of embeddings, by byte offsets. */
module EmbedLayout {
  import opened Statuses
  import opened Utf8
  import opened LittleEndian
  import opened Basics
  import opened EmbedFormat

  /** 16 bytes of id, 8 of hash, 4 for each element of the vector. */
  ghost predicate LiesAt(file: seq<byte>, n: nat, dim: nat, r: Record) {
    && n + 24 + 4 * dim <= |file|
    && r.uuid == file[n..n + 16] && r.fnv == Value(file[n + 16..n + 24]) && |r.vec| == dim
    && forall i {:trigger r.vec[i]} :: 0 <= i < dim ==> r.vec[i] == Value(file[n + 24 + 4 * i..n + 28 + 4 * i])
  }

  /** Whether a file is one for this model: the mark ASNG, version 1, the dimensions, the number of records, the
    * model's hash, and then as many whole records as it says and nothing else. */
  predicate IsFileOf(file: seq<byte>, dim: int, hash: seq<byte>) {
    && |file| >= 52 && file[..4] == [65, 83, 78, 71] && Value(file[4..8]) == 1
    && dim > 0 && Value(file[8..12]) == dim && file[20..52] == hash && !(forall k :: 0 <= k < |hash| ==> hash[k] == 0)
    && |file| == 52 + Value(file[12..20]) * (24 + 4 * dim)
  }

  lemma {:induction false} ElementLies(dim: nat, s: seq<byte>, i: nat)
    requires |s| >= dim * 4 && i < dim
    ensures |ReadVector(dim, s)| == dim && ReadVector(dim, s)[i] == Value(s[4 * i..4 * i + 4])
    decreases dim
  {
    VectorLength(dim, s);
    if i > 0 {
      ElementLies(dim - 1, s[4..], i - 1);
      assert s[4..][4 * (i - 1)..4 * (i - 1) + 4] == s[4 * i..4 * i + 4];
    }
  }

  lemma {:induction false} VectorLength(dim: nat, s: seq<byte>)
    requires |s| >= dim * 4
    ensures |ReadVector(dim, s)| == dim
    decreases dim
  {
    if dim > 0 { VectorLength(dim - 1, s[4..]); }
  }

  lemma RecordLies(file: seq<byte>, n: nat, dim: nat)
    requires n + 24 + 4 * dim <= |file|
    ensures LiesAt(file, n, dim, ReadRecord(dim, file[n..]))
  {
    var s := file[n..];
    VectorLength(dim, s[24..]);
    assert s[..16] == file[n..n + 16] && s[16..24] == file[n + 16..n + 24];
    forall i | 0 <= i < dim ensures ReadVector(dim, s[24..])[i] == Value(file[n + 24 + 4 * i..n + 28 + 4 * i]) {
      ElementLies(dim, s[24..], i);
      assert s[24..][4 * i..4 * i + 4] == file[n + 24 + 4 * i..n + 28 + 4 * i];
    }
  }

  /** The start of the k-th record. */
  function Place(k: nat, dim: nat): (n: nat)
    ensures n >= 52
  {
    if k == 0 then 52 else Place(k - 1, dim) + 24 + 4 * dim
  }

  lemma {:induction false} Places(k: nat, dim: nat)
    ensures Place(k, dim) == 52 + k * (24 + 4 * dim)
  {
    if k > 0 {
      Places(k - 1, dim);
      assert k * (24 + 4 * dim) == (k - 1) * (24 + 4 * dim) + (24 + 4 * dim);
    }
  }

  lemma {:induction false} RecordsLie(file: seq<byte>, n: nat, left: nat, dim: nat, k: nat)
    requires n <= |file| && |file| - n == left * RecordSize(dim) && k < left
    ensures |ReadRecords(left, dim, file[n..])| == left
    ensures LiesAt(file, n + (Place(k, dim) - 52), dim, ReadRecords(left, dim, file[n..])[k])
    decreases left
  {
    RecordsLength(left, dim, file[n..]);
    TakeOne(left, RecordSize(dim));
    if k == 0 {
      RecordLies(file, n, dim);
    } else {
      var size := RecordSize(dim);
      RecordsLie(file, n + size, left - 1, dim, k - 1);
      assert file[n..][size..] == file[n + size..];
    }
  }

  lemma {:induction false} RecordsLength(n: nat, dim: nat, s: seq<byte>)
    requires |s| == n * RecordSize(dim)
    ensures |ReadRecords(n, dim, s)| == n
    decreases n
  {
    if n > 0 {
      TakeOne(n, RecordSize(dim));
      RecordsLength(n - 1, dim, s[RecordSize(dim)..]);
    }
  }

  /** A file is read exactly when it is one for the model; and its k-th record is what lies k records after
    * the header. */
  lemma ParseReads(file: seq<byte>, dim: int, hash: seq<byte>, k: nat)
    requires |file| < WORD && |hash| == 32
    ensures Parse(file, dim, hash).Some? <==> IsFileOf(file, dim, hash)
    ensures Parse(file, dim, hash).Some? ==>
              var rs := Parse(file, dim, hash).value;
              && |rs| == Value(file[12..20])
              && (k < |rs| ==> LiesAt(file, 52 + k * (24 + 4 * dim), dim, rs[k]))
  {
    if |file| >= 52 && dim > 0 {
      var count := Value(file[12..20]);
      LengthCheckIsExact(|file|, count, dim);
      if Parse(file, dim, hash).Some? {
        RecordsLength(count, dim, file[HEADER..]);
        if k < count {
          RecordsLie(file, 52, count, dim, k);
          Places(k, dim);
        }
      }
    }
  }
}
