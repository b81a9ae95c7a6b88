/** Saving and loading embeddings: which vectors come back, and to whom. */
module EmbedRoundTrip {
  import opened Statuses
  import opened Utf8
  import opened LittleEndian
  import opened Basics
  import opened EmbedFormat

  // ---------------------------------------------------------------- bytes

  lemma Front(a: seq<byte>, b: seq<byte>)
    ensures (a + b)[..|a|] == a && (a + b)[|a|..] == b
  {
  }

  lemma {:induction false} VectorRoundTrip(vec: seq<nat>, rest: seq<byte>)
    requires IsVector(vec, |vec|)
    ensures ReadVector(|vec|, VectorBytes(vec) + rest) == vec
  {
    if vec != [] {
      FourBytes(vec[0]);
      var tail := VectorBytes(vec[1..]) + rest;
      Together(Little(vec[0], 4), VectorBytes(vec[1..]), rest);
      Front(Little(vec[0], 4), tail);
      VectorRoundTrip(vec[1..], rest);
    }
  }

  predicate Regular(r: Record, dim: nat) { |r.uuid| == 16 && r.fnv < WORD && IsVector(r.vec, dim) }

  ghost predicate AllRegular(rs: seq<Record>, dim: nat) {
    forall k {:trigger Regular(rs[k], dim)} :: 0 <= k < |rs| ==> Regular(rs[k], dim)
  }

  lemma SliceOf(a: seq<byte>, b: seq<byte>, c: seq<byte>)
    ensures (a + (b + c))[..|a|] == a && (a + (b + c))[|a|..|a| + |b|] == b && (a + (b + c))[|a| + |b|..] == c
  {
    var s := a + (b + c);
    assert s[|a|..] == b + c;
    assert s[|a|..][..|b|] == s[|a|..|a| + |b|];
    assert s[|a|..][|b|..] == s[|a| + |b|..];
  }

  lemma RecordRoundTrip(r: Record, dim: nat, rest: seq<byte>)
    requires Regular(r, dim)
    ensures |RecordBytes(r)| == RecordSize(dim)
    ensures ReadRecord(dim, RecordBytes(r) + rest) == r
  {
    var a, b, c := r.uuid, Little(r.fnv, 8), VectorBytes(r.vec);
    assert RecordBytes(r) + rest == a + (b + (c + rest));
    SliceOf(a, b, c + rest);
    EightBytes(r.fnv);
    VectorRoundTrip(r.vec, rest);
  }

  lemma {:induction false} BodyRoundTrip(rs: seq<Record>, dim: nat)
    requires AllRegular(rs, dim)
    ensures |Body(rs)| == |rs| * RecordSize(dim) && ReadRecords(|rs|, dim, Body(rs)) == rs
  {
    if rs != [] {
      var r, rest := rs[0], Body(rs[1..]);
      assert Regular(rs[0], dim);
      assert AllRegular(rs[1..], dim) by {
        forall k | 0 <= k < |rs| - 1 ensures Regular(rs[1..][k], dim) { assert Regular(rs[k + 1], dim); }
      }
      RecordRoundTrip(r, dim, rest);
      BodyRoundTrip(rs[1..], dim);
      TakeOne(|rs|, RecordSize(dim));
      assert (RecordBytes(r) + rest)[RecordSize(dim)..] == rest;
    }
  }

  lemma HeadFields(dim: nat, count: nat, hash: seq<byte>, rest: seq<byte>)
    requires |hash| == 32 && dim < HALF && count < WORD
    ensures var f := Head(dim, count, hash) + rest;
            && f[..4] == Magic() && Value(f[4..8]) == VERSION && Value(f[8..12]) == dim
            && Value(f[12..20]) == count && f[20..52] == hash && f[HEADER..] == rest
  {
    var f := Head(dim, count, hash) + rest;
    var a, b, c, d := Magic(), Little(VERSION, 4), Little(dim, 4), Little(count, 8);
    assert f == a + b + c + d + hash + rest;
    assert f[..4] == a && f[4..8] == b && f[8..12] == c && f[12..20] == d && f[20..52] == hash && f[52..] == rest;
    FourBytes(VERSION);
    FourBytes(dim);
    EightBytes(count);
  }

  lemma {:induction false} SavedIsRegular(es: seq<Entry>, dim: nat, k: nat)
    requires AllSound(es, dim) && k <= |es|
    ensures AllRegular(Saved(es, k), dim) && |Saved(es, k)| <= k
  {
    if k > 0 {
      SavedIsRegular(es, dim, k - 1);
      assert Sound(es[k - 1], dim);
      var before, after := Saved(es, k - 1), Saved(es, k);
      forall j | 0 <= j < |after| ensures Regular(after[j], dim) {
        if j < |before| { assert Regular(before[j], dim); }
      }
    }
  }

  /** The file reads back as the records written, under the same model. */
  lemma FileRoundTrip(es: seq<Entry>, dim: nat, hash: seq<byte>)
    requires AllSound(es, dim) && 0 < dim < HALF && |hash| == 32 && !AllZero(hash) && |es| < WORD
    requires |File(es, dim, hash)| < WORD
    ensures Parse(File(es, dim, hash), dim, hash) == Some(Saved(es, |es|))
  {
    var rs := Saved(es, |es|);
    SavedIsRegular(es, dim, |es|);
    BodyRoundTrip(rs, dim);
    HeadFields(dim, |rs|, hash, Body(rs));
    LengthCheckIsExact(|File(es, dim, hash)|, |rs|, dim);
  }

  // ---------------------------------------------------------------- who gets a vector back

  function Bare(e: Entry): Entry { e.(vec := None) }

  /** The cache as a restart finds it: its entries without their vectors. */
  function AllBare(es: seq<Entry>): (b: seq<Entry>)
    ensures |b| == |es| && forall k {:trigger b[k]} :: 0 <= k < |es| ==> b[k] == Bare(es[k])
  {
    seq(|es|, k requires 0 <= k < |es| => Bare(es[k]))
  }

  ghost predicate DistinctIds(es: seq<Entry>) {
    forall j, k {:trigger es[j].id, es[k].id} :: 0 <= j < k < |es| ==> es[j].id != es[k].id
  }

  predicate SpelledOut(e: Entry) { Savable(e) ==> e.id.Canonical? }

  /** What should come back: the vectors that were savable. */
  function Kept(e: Entry): Entry { if Savable(e) then e else Bare(e) }

  /** The cache once the first k entries have been restored. */
  ghost predicate Restored(es: seq<Entry>, k: nat, t: seq<Entry>) {
    && k <= |es| == |t|
    && (forall j {:trigger t[j]} :: 0 <= j < k ==> t[j] == Kept(es[j]))
    && (forall j {:trigger t[j]} :: k <= j < |es| ==> t[j] == Bare(es[j]))
  }

  lemma RestoreNext(es: seq<Entry>, k: nat, t: seq<Entry>)
    requires Restored(es, k, t) && k < |es| && DistinctIds(es) && SpelledOut(es[k])
    ensures !Savable(es[k]) ==> Restored(es, k + 1, t)
    ensures Savable(es[k]) ==> Restored(es, k + 1, Attach(t, RecordOf(es[k])))
  {
    if Savable(es[k]) {
      var j := Slot(t, es[k].id, 0);
      assert t[k] == Bare(es[k]);
      if j < |t| { assert t[j].id == es[j].id; }
      assert j == k;
    }
  }

  ghost predicate AllSpelledOut(es: seq<Entry>) {
    forall j {:trigger SpelledOut(es[j])} :: 0 <= j < |es| ==> SpelledOut(es[j])
  }

  lemma AttachNext(bare: seq<Entry>, es: seq<Entry>, k: nat)
    requires k < |es|
    ensures AttachAll(bare, Saved(es, k + 1)) ==
              var before := AttachAll(bare, Saved(es, k));
              if Savable(es[k]) then Attach(before, RecordOf(es[k])) else before
  {
    var before, after := Saved(es, k), Saved(es, k + 1);
    if Savable(es[k]) {
      assert after == before + [RecordOf(es[k])] && after[..|before|] == before;
    } else {
      assert after == before;
    }
  }

  lemma {:induction false} RestoreAll(es: seq<Entry>, bare: seq<Entry>, k: nat, t: seq<Entry>)
    requires k <= |es| && DistinctIds(es) && AllSpelledOut(es) && bare == AllBare(es)
    requires t == AttachAll(bare, Saved(es, k))
    ensures Restored(es, k, t)
  {
    if k == 0 {
      NothingRestored(es, bare);
    } else {
      var before := AttachAll(bare, Saved(es, k - 1));
      RestoreAll(es, bare, k - 1, before);
      RestoreOne(es, bare, k - 1, before, t);
    }
  }

  lemma NothingRestored(es: seq<Entry>, bare: seq<Entry>)
    requires bare == AllBare(es)
    ensures Restored(es, 0, AttachAll(bare, Saved(es, 0)))
  {
  }

  lemma RestoreOne(es: seq<Entry>, bare: seq<Entry>, k: nat, before: seq<Entry>, t: seq<Entry>)
    requires k < |es| && DistinctIds(es) && AllSpelledOut(es) && Restored(es, k, before)
    requires before == AttachAll(bare, Saved(es, k)) && t == AttachAll(bare, Saved(es, k + 1))
    ensures Restored(es, k + 1, t)
  {
    assert SpelledOut(es[k]);
    RestoreNext(es, k, before);
    AttachNext(bare, es, k);
  }

  ghost predicate AllKept(es: seq<Entry>, t: seq<Entry>) {
    |t| == |es| && forall j {:trigger t[j]} :: 0 <= j < |es| ==> t[j] == Kept(es[j])
  }

  /** An entry that does not spell its id canonically never gets a vector. */
  lemma RespelledStaysBare(es: seq<Entry>, rs: seq<Record>, k: nat)
    requires k < |es| && !es[k].id.Canonical?
    ensures AttachAll(es, rs)[k] == es[k]
  {
    AttachedIsExplained(es, rs, k);
  }

  /** One such cache: its only vector is saved and does not come back. */
  lemma RespelledLosesVector(uuid: seq<byte>, how: nat, query: seq<byte>, vec: seq<nat>)
    ensures var es := [Entry(Respelled(uuid, how), query, Some(vec))];
            Savable(es[0]) && AttachAll(AllBare(es), Saved(es, 1))[0].vec.None?
  {
    var es := [Entry(Respelled(uuid, how), query, Some(vec))];
    RespelledStaysBare(AllBare(es), Saved(es, 1), 0);
    assert AllBare(es)[0] == Bare(es[0]);
  }

  /** With distinct ids every savable vector comes back to its own entry, and nothing else is
    * attached, exactly when every savable entry spells its id canonically. */
  lemma VectorsComeBack(es: seq<Entry>)
    requires DistinctIds(es)
    ensures AllKept(es, AttachAll(AllBare(es), Saved(es, |es|)))
            <==> AllSpelledOut(es)
  {
    var t := AttachAll(AllBare(es), Saved(es, |es|));
    if AllSpelledOut(es) {
      RestoreAll(es, AllBare(es), |es|, t);
    } else {
      var j :| 0 <= j < |es| && !SpelledOut(es[j]);
      RespelledStaysBare(AllBare(es), Saved(es, |es|), j);
      assert t[j] == Bare(es[j]);
    }
  }
}
