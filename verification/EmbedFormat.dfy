/** The file of query embeddings: a fixed header, then one record for each entry saved. */
module EmbedFormat {
  import opened Statuses
  import opened Utf8
  import opened LittleEndian
  import opened Basics

  const HEADER: nat := 52
  const VERSION: nat := 1

  /** An entry's id is text: the canonical spelling of a UUID, another accepted spelling, or
    * no UUID at all. */
  datatype Id = Canonical(uuid: seq<byte>) | Respelled(uuid: seq<byte>, how: nat) | Malformed(text: seq<byte>)

  predicate WellSpelled(id: Id) { id.Malformed? || |id.uuid| == 16 }

  /** A vector is its 32-bit patterns; the cache keeps it or has lost it. */
  datatype Entry = Entry(id: Id, query: seq<byte>, vec: Option<seq<nat>>)

  datatype Record = Record(uuid: seq<byte>, fnv: nat, vec: seq<nat>)

  /** FNV-1a, 64 bits. */
  function Fnv(query: seq<byte>, h: bv64 := 14695981039346656037): bv64 {
    if query == [] then h else Fnv(query[1..], (h ^ (query[0] as bv64)) * 1099511628211)
  }

  function QueryHash(query: seq<byte>): (n: nat)
    ensures n < WORD
  {
    Fnv(query) as nat
  }

  predicate IsVector(vec: seq<nat>, dim: nat) {
    |vec| == dim && forall k :: 0 <= k < |vec| ==> vec[k] < HALF
  }

  predicate Savable(e: Entry) { e.vec.Some? && !e.id.Malformed? }

  predicate Sound(e: Entry, dim: nat) { WellSpelled(e.id) && (e.vec.Some? ==> IsVector(e.vec.value, dim)) }

  ghost predicate AllSound(es: seq<Entry>, dim: nat) {
    forall k {:trigger Sound(es[k], dim)} :: 0 <= k < |es| ==> Sound(es[k], dim)
  }

  // ---------------------------------------------------------------- writing

  function VectorBytes(vec: seq<nat>): (s: seq<byte>)
    ensures |s| == 4 * |vec|
  {
    if vec == [] then [] else Little(vec[0], 4) + VectorBytes(vec[1..])
  }

  function RecordBytes(r: Record): seq<byte> {
    r.uuid + (Little(r.fnv, 8) + VectorBytes(r.vec))
  }

  function Body(rs: seq<Record>): seq<byte> {
    if rs == [] then [] else RecordBytes(rs[0]) + Body(rs[1..])
  }

  function Magic(): (m: seq<byte>) ensures |m| == 4 { [65, 83, 78, 71] }

  function Head(dim: nat, count: nat, hash: seq<byte>): (s: seq<byte>)
    requires |hash| == 32
    ensures |s| == HEADER
  {
    Magic() + Little(VERSION, 4) + Little(dim, 4) + Little(count, 8) + hash
  }

  function RecordOf(e: Entry): Record
    requires Savable(e)
  {
    Record(e.id.uuid, QueryHash(e.query), e.vec.value)
  }

  /** The records of the first k entries. */
  function Saved(es: seq<Entry>, k: nat): seq<Record>
    requires k <= |es|
  {
    if k == 0 then [] else Saved(es, k - 1) + (if Savable(es[k - 1]) then [RecordOf(es[k - 1])] else [])
  }

  function File(es: seq<Entry>, dim: nat, hash: seq<byte>): seq<byte>
    requires |hash| == 32
  {
    Head(dim, |Saved(es, |es|)|, hash) + Body(Saved(es, |es|))
  }

  // ---------------------------------------------------------------- reading

  function RecordSize(dim: nat): nat { 24 + dim * 4 }

  function ReadVector(dim: nat, s: seq<byte>): seq<nat>
    requires |s| >= dim * 4
  {
    if dim == 0 then [] else [Value(s[..4])] + ReadVector(dim - 1, s[4..])
  }

  function ReadRecord(dim: nat, s: seq<byte>): Record
    requires |s| >= RecordSize(dim)
  {
    Record(s[..16], Value(s[16..24]), ReadVector(dim, s[24..]))
  }

  function ReadRecords(n: nat, dim: nat, s: seq<byte>): seq<Record>
    requires |s| == n * RecordSize(dim)
  {
    if n == 0 then []
    else
      TakeOne(n, RecordSize(dim));
      [ReadRecord(dim, s)] + ReadRecords(n - 1, dim, s[RecordSize(dim)..])
  }

  lemma TakeOne(n: nat, size: nat)
    requires n > 0
    ensures n * size == size + (n - 1) * size && n * size >= size
  {
    assert n * size == (1 + (n - 1)) * size;
  }

  /** What the length check compares, in 64-bit arithmetic. */
  predicate LengthAdmits(len: nat, count: nat, dim: nat) {
    && len >= HEADER && count <= (len - HEADER) / RecordSize(dim)
    && len == (HEADER + count * RecordSize(dim) % WORD) % WORD
  }

  /** It admits exactly the files that hold a header and so many whole records; the product
    * never wraps around. */
  lemma LengthCheckIsExact(len: nat, count: nat, dim: nat)
    requires len < WORD
    ensures LengthAdmits(len, count, dim) <==> len == HEADER + count * RecordSize(dim)
  {
    var size := RecordSize(dim);
    if len >= HEADER {
      WholeRecords(len - HEADER, count, size);
      if count * size <= len - HEADER { NeverWraps(count * size); }
    } else {
      NotNegative(count, size);
    }
  }

  /** As many records fit as the quotient says. */
  lemma WholeRecords(room: nat, count: nat, size: nat)
    requires size > 0
    ensures count <= room / size <==> count * size <= room
  {
    var q := room / size;
    assert q * size <= room < (q + 1) * size by { Quotient(room, size); }
    if count <= q { FewerFit(count, q, size); } else { FewerFit(q + 1, count, size); }
  }

  lemma Quotient(n: nat, d: nat)
    requires d > 0
    ensures n / d * d <= n < (n / d + 1) * d
  {
    assert n == n / d * d + n % d;
    assert (n / d + 1) * d == n / d * d + d;
  }

  lemma NotNegative(n: nat, m: nat)
    ensures n * m >= 0
  {
  }

  lemma NeverWraps(n: nat)
    requires HEADER + n < WORD
    ensures (HEADER + n % WORD) % WORD == HEADER + n
  {
  }

  predicate AllZero(hash: seq<byte>) { forall k :: 0 <= k < |hash| ==> hash[k] == 0 }

  /** The records of a file, or None when it is not for this model and these dimensions. */
  function Parse(file: seq<byte>, dim: int, hash: seq<byte>): (r: Option<seq<Record>>)
    requires |file| < WORD
  {
    if |file| < HEADER || file[..4] != Magic() || Value(file[4..8]) != VERSION then None
    else if dim <= 0 || Value(file[8..12]) != dim || AllZero(hash) || file[20..52] != hash then None
    else if !LengthAdmits(|file|, Value(file[12..20]), dim) then None
    else
      LengthCheckIsExact(|file|, Value(file[12..20]), dim);
      Some(ReadRecords(Value(file[12..20]), dim, file[HEADER..]))
  }

  // ---------------------------------------------------------------- attaching

  /** The first entry from j on with this id and no vector, or their number. */
  function Slot(es: seq<Entry>, id: Id, j: nat): (r: nat)
    requires j <= |es|
    ensures j <= r <= |es| && (r < |es| ==> es[r].vec.None? && es[r].id == id)
    ensures forall k :: j <= k < r ==> !(es[k].vec.None? && es[k].id == id)
    decreases |es| - j
  {
    if j < |es| && !(es[j].vec.None? && es[j].id == id) then Slot(es, id, j + 1) else j
  }

  function Attach(es: seq<Entry>, r: Record): (t: seq<Entry>)
    ensures |t| == |es|
  {
    var j := Slot(es, Canonical(r.uuid), 0);
    if j == |es| || r.fnv != QueryHash(es[j].query) then es else es[j := es[j].(vec := Some(r.vec))]
  }

  function AttachAll(es: seq<Entry>, rs: seq<Record>): (t: seq<Entry>)
    ensures |t| == |es|
  {
    if rs == [] then es else Attach(AttachAll(es, rs[..|rs| - 1]), rs[|rs| - 1])
  }

  /** A vector is only ever attached to an entry with its id and query hash. */
  ghost predicate Explained(e: Entry, f: Entry, rs: seq<Record>) {
    e == f || exists r :: r in rs && e.vec.None? && e.id == Canonical(r.uuid) && QueryHash(e.query) == r.fnv
                          && f == e.(vec := Some(r.vec))
  }

  lemma {:induction false} AttachedIsExplained(es: seq<Entry>, rs: seq<Record>, k: nat)
    requires k < |es|
    ensures Explained(es[k], AttachAll(es, rs)[k], rs)
  {
    if rs != [] {
      var n := |rs| - 1;
      AttachedIsExplained(es, rs[..n], k);
      var before := AttachAll(es, rs[..n]);
      if before[k] != es[k] {
        assert AttachAll(es, rs)[k] == before[k];
      }
    }
  }
}
