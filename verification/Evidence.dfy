/** What a selection of evidence leaves out, told by scores, paths and offsets. */
module Evidence {
  import opened Utf8
  import opened TopK
  import opened Tiling
  import opened Admission

  // ---------------------------------------------------------------- the order

  /** At the first byte where they differ a has the lesser one, or a ends there. */
  ghost predicate DiffersAt(a: seq<byte>, b: seq<byte>, k: nat) {
    && k < |b| && k <= |a| && (k < |a| ==> a[k] < b[k])
    && forall j :: 0 <= j < k ==> a[j] == b[j]
  }

  ghost predicate Precedes(a: seq<byte>, b: seq<byte>) {
    exists k: nat :: DiffersAt(a, b, k)
  }

  lemma {:induction false} LessIsPrecedes(a: seq<byte>, b: seq<byte>)
    ensures Less(a, b) <==> Precedes(a, b)
  {
    if a != [] && b != [] && a[0] == b[0] {
      LessIsPrecedes(a[1..], b[1..]);
      if k: nat :| DiffersAt(a[1..], b[1..], k) {
        assert DiffersAt(a, b, k + 1);
      }
      if k: nat :| DiffersAt(a, b, k) {
        assert DiffersAt(a[1..], b[1..], k - 1);
      }
    } else if Less(a, b) {
      assert DiffersAt(a, b, 0);
    }
  }

  /** A higher score; then the earlier path; then the earlier place in the file. */
  ghost predicate Ahead(a: Chunk, b: Chunk) {
    || a.score > b.score
    || (a.score == b.score && (Precedes(a.path, b.path) || (a.path == b.path && a.offset < b.offset)))
  }

  lemma BetterIsAhead(a: Chunk, b: Chunk)
    ensures Better(a, b) <==> Ahead(a, b)
  {
    LessIsPrecedes(a.path, b.path);
    LessTrichotomy(a.path, b.path);
  }

  // ---------------------------------------------------------------- what is left out

  /** There is no room beside chunks that are all at least as good. */
  ghost predicate Crowded(kept: multiset<Chunk>, room: nat, c: Chunk) {
    |kept| == room && forall x {:trigger Ahead(c, x)} :: x in kept ==> !Ahead(c, x)
  }

  /** Eight tiles of its own file are at least as good. */
  ghost predicate CrowdedAtHome(rank: Rank, f: File, c: Chunk) {
    exists best: multiset<Chunk> :: best <= multiset(Tiles(rank, f.path, f.data, 0)) && Crowded(best, 8, c)
  }

  lemma TopCrowds(kept: multiset<Chunk>, all: multiset<Chunk>, k: nat, c: Chunk)
    requires IsTop(kept, all, k) && c in all && c !in kept
    ensures Crowded(kept, k, c)
  {
    assert c in all - kept;
    if |all| < k { SameSize(kept, all); }
    forall x | x in kept ensures !Ahead(c, x) { BetterIsAhead(c, x); }
  }

  predicate IsSource(f: File) { 0 !in f.data && Utf8.Valid(f.data) }

  /** A tile that is not kept is crowded out, among all that is kept or in its own file. */
  lemma LeftOut(rank: Rank, files: seq<File>, offered: multiset<Chunk>, kept: multiset<Chunk>, room: nat, f: File,
                c: Chunk)
    requires Offers(rank, files, offered) && IsTop(kept, offered, room)
    requires f in files && IsSource(f) && c in Tiles(rank, f.path, f.data, 0) && c !in kept
    ensures Crowded(kept, room, c) || CrowdedAtHome(rank, f, c)
  {
    var j :| 0 <= j < |files| && files[j] == f;
    var rest, best := OffersWithout(rank, files, offered, j);
    if c in best {
      TopCrowds(kept, offered, room, c);
    } else {
      assert c in multiset(Tiles(rank, f.path, f.data, 0));
      TopCrowds(best, multiset(Tiles(rank, f.path, f.data, 0)), CODE_FILE_CHUNKS, c);
    }
  }

  ghost predicate ComesFrom(rank: Rank, files: seq<File>, c: Chunk) {
    exists f :: f in files && IsSource(f) && c in Tiles(rank, f.path, f.data, 0) && IsTileOf(c, rank, f.path, f.data)
  }

  /** What is kept are tiles of files that are text; and whatever else they have is crowded out. */
  ghost predicate Selects(rank: Rank, files: seq<File>, kept: multiset<Chunk>, room: nat) {
    && |kept| <= room
    && (forall c {:trigger ComesFrom(rank, files, c)} :: c in kept ==> ComesFrom(rank, files, c))
    && forall f: File, c {:trigger c in Tiles(rank, f.path, f.data, 0)} ::
         f in files && IsSource(f) && c in Tiles(rank, f.path, f.data, 0) ==>
           c in kept || Crowded(kept, room, c) || CrowdedAtHome(rank, f, c)
  }

  lemma OffersSelect(rank: Rank, files: seq<File>, offered: multiset<Chunk>, kept: multiset<Chunk>, room: nat)
    requires Offers(rank, files, offered) && IsTop(kept, offered, room)
    ensures Selects(rank, files, kept, room)
  {
    forall c | c in kept ensures ComesFrom(rank, files, c) {
      OffersAreTiles(rank, files, offered, c);
      var f :| f in files && 0 !in f.data && Utf8.Valid(f.data) && c in Tiles(rank, f.path, f.data, 0);
      FirstIsBoundary(f.data);
      TilesAreTiles(rank, f.path, f.data, 0, c);
    }
    forall f: File, c | f in files && IsSource(f) && c in Tiles(rank, f.path, f.data, 0)
      ensures c in kept || Crowded(kept, room, c) || CrowdedAtHome(rank, f, c)
    {
      if c !in kept { LeftOut(rank, files, offered, kept, room, f, c); }
    }
  }
}
