/** What a scan of files admits: each file's best few chunks, then the best of those. */
module Admission {
  import opened Utf8
  import opened TopK
  import opened Tiling

  const CODE_FILE_CHUNKS: nat := 8

  function Prefix(s: seq<Chunk>, k: nat): seq<Chunk> {
    if |s| <= k then s else s[..k]
  }

  lemma AddLast(s: seq<Chunk>, i: nat)
    requires i < |s|
    ensures multiset(s[..i + 1]) == multiset(s[..i]) + multiset{s[i]}
  {
    assert s[..i + 1] == s[..i] + [s[i]];
  }

  lemma TakeSnoc(s: seq<Chunk>, m: nat)
    requires m < |s|
    ensures s[..m + 1] == s[..m] + [s[m]]
  {
  }

  lemma PrefixSnoc(s: seq<Chunk>, k: nat, x: Chunk)
    ensures Prefix(Prefix(s, k) + [x], k) == Prefix(s + [x], k)
  {
  }

  datatype File = File(path: seq<byte>, data: seq<byte>)

  /** What one file offers: the best few of its tiles, or nothing when it is not text
    * or has been pinned already. */
  ghost predicate IsBestOf(best: multiset<Chunk>, rank: Rank, path: seq<byte>, data: seq<byte>, isActive: bool) {
    if isActive || 0 in data || !Utf8.Valid(data) then best == multiset{}
    else IsTop(best, multiset(Tiles(rank, path, data, 0)), CODE_FILE_CHUNKS)
  }

  ghost predicate BestSplit(rank: Rank, files: seq<File>, before: multiset<Chunk>, best: multiset<Chunk>)
    requires files != []
    decreases |files|, 0
  {
    var f := files[|files| - 1];
    Offers(rank, files[..|files| - 1], before) && IsBestOf(best, rank, f.path, f.data, false)
  }

  /** u is the sum of what each file offers. */
  ghost predicate Offers(rank: Rank, files: seq<File>, u: multiset<Chunk>)
    decreases |files|, 1
  {
    if files == [] then u == multiset{}
    else exists before, best :: BestSplit(rank, files, before, best) && u == before + best
  }

  /** The files that a scan offers chunks of: not the active one again once it was read. */
  function Others(files: seq<File>, skip: bool, active: seq<byte>): seq<File> {
    if files == [] then []
    else
      var last := files[|files| - 1];
      Others(files[..|files| - 1], skip, active) + (if skip && last.path == active then [] else [last])
  }

  lemma OthersNext(files: seq<File>, skip: bool, active: seq<byte>, i: nat)
    requires i < |files|
    ensures Others(files[..i + 1], skip, active) ==
              Others(files[..i], skip, active) + (if skip && files[i].path == active then [] else [files[i]])
  {
    assert files[..i + 1][..i] == files[..i];
  }

  lemma {:induction false} OthersCount(files: seq<File>, skip: bool, active: seq<byte>, f: File)
    ensures multiset(Others(files, skip, active))[f] == if skip && f.path == active then 0 else multiset(files)[f]
  {
    if files != [] {
      var n := |files| - 1;
      OthersCount(files[..n], skip, active, f);
      assert files == files[..n] + [files[n]];
    }
  }

  lemma OthersSame(files: seq<File>, files': seq<File>, skip: bool, active: seq<byte>)
    requires multiset(files) == multiset(files')
    ensures multiset(Others(files, skip, active)) == multiset(Others(files', skip, active))
  {
    forall f ensures multiset(Others(files, skip, active))[f] == multiset(Others(files', skip, active))[f] {
      OthersCount(files, skip, active, f);
      OthersCount(files', skip, active, f);
    }
  }

  lemma OthersAreFiles(files: seq<File>, skip: bool, active: seq<byte>)
    ensures forall f :: f in Others(files, skip, active) ==> f in files
  {
    forall f | f in Others(files, skip, active) ensures f in files {
      OthersCount(files, skip, active, f);
      assert f in multiset(Others(files, skip, active));
      assert f in multiset(files);
    }
  }

  lemma BestIsUnique(rank: Rank, f: File, a: multiset<Chunk>, b: multiset<Chunk>)
    requires IsBestOf(a, rank, f.path, f.data, false) && IsBestOf(b, rank, f.path, f.data, false)
    ensures a == b
  {
    TilesComparable(rank, f.path, f.data);
    if 0 !in f.data && Utf8.Valid(f.data) {
      TopIsUnique(a, b, multiset(Tiles(rank, f.path, f.data, 0)), CODE_FILE_CHUNKS);
    }
  }

  lemma OffersSnoc(rank: Rank, files: seq<File>, n: nat, before: multiset<Chunk>, best: multiset<Chunk>)
    requires n < |files| && Offers(rank, files[..n], before)
    requires IsBestOf(best, rank, files[n].path, files[n].data, false)
    ensures Offers(rank, files[..n + 1], before + best)
  {
    assert files[..n + 1][..n] == files[..n];
    assert BestSplit(rank, files[..n + 1], before, best);
  }

  lemma OffersAdd(rank: Rank, files: seq<File>, f: File, before: multiset<Chunk>, best: multiset<Chunk>)
    requires Offers(rank, files, before) && IsBestOf(best, rank, f.path, f.data, false)
    ensures Offers(rank, files + [f], before + best)
  {
    var all := files + [f];
    assert all[..|files|] == files && all[..|files| + 1] == all;
    OffersSnoc(rank, all, |files|, before, best);
  }

  lemma Regroup(a: multiset<Chunk>, b: multiset<Chunk>, c: multiset<Chunk>)
    ensures (a + b) + c == (a + c) + b
  {
  }

  function Without(files: seq<File>, j: nat): seq<File>
    requires j < |files|
  {
    files[..j] + files[j + 1..]
  }

  lemma OffersLast(rank: Rank, files: seq<File>, u: multiset<Chunk>)
    returns (before: multiset<Chunk>, best: multiset<Chunk>)
    requires Offers(rank, files, u) && files != []
    ensures u == before + best && Offers(rank, files[..|files| - 1], before)
    ensures IsBestOf(best, rank, files[|files| - 1].path, files[|files| - 1].data, false)
  {
    before, best :| BestSplit(rank, files, before, best) && u == before + best;
  }

  lemma WithoutKeepsLast(rank: Rank, files: seq<File>, j: nat, rest: multiset<Chunk>, last: multiset<Chunk>)
    requires j < |files| - 1 && Offers(rank, Without(files[..|files| - 1], j), rest)
    requires IsBestOf(last, rank, files[|files| - 1].path, files[|files| - 1].data, false)
    ensures Offers(rank, Without(files, j), rest + last)
  {
    WithoutSplits(files, j);
    OffersSnoc(rank, Without(files, j), |files| - 2, rest, last);
  }

  lemma WithoutSplits(files: seq<File>, j: nat)
    requires j < |files| - 1
    ensures var n, shorter := |files| - 1, Without(files, j);
            && |shorter| == n && Without(files[..n], j) == shorter[..n - 1] && shorter[n - 1] == files[n]
            && shorter[..n - 1 + 1] == shorter
  {
  }

  /** Taking one file out of a scan takes out exactly its own offer. */
  lemma {:induction false} OffersWithout(rank: Rank, files: seq<File>, u: multiset<Chunk>, j: nat)
    returns (rest: multiset<Chunk>, best: multiset<Chunk>)
    requires Offers(rank, files, u) && j < |files|
    ensures u == rest + best
    ensures IsBestOf(best, rank, files[j].path, files[j].data, false)
    ensures Offers(rank, Without(files, j), rest)
    decreases |files|
  {
    var n := |files| - 1;
    var before, last := OffersLast(rank, files, u);
    if j == n {
      rest, best := before, last;
      assert Without(files, j) == files[..n];
    } else {
      var rest', b := OffersWithout(rank, files[..n], before, j);
      WithoutKeepsLast(rank, files, j, rest', last);
      Regroup(rest', b, last);
      rest, best := rest' + last, b;
    }
  }

  lemma RemoveAt(files: seq<File>, j: nat)
    requires j < |files|
    ensures multiset(Without(files, j)) == multiset(files) - multiset{files[j]}
  {
    assert files == files[..j] + [files[j]] + files[j + 1..];
  }

  /** What a scan offers does not depend on the order of the files. */
  lemma {:induction false} OffersIgnoreOrder(rank: Rank, files: seq<File>, files': seq<File>,
                                             u: multiset<Chunk>, u': multiset<Chunk>)
    requires Offers(rank, files, u) && Offers(rank, files', u')
    requires multiset(files) == multiset(files')
    ensures u == u'
    decreases |files|
  {
    if files == [] {
      assert |files'| == |multiset(files')| == 0;
    } else {
      var n := |files| - 1;
      var f := files[n];
      var before, best := OffersLast(rank, files, u);
      assert f in multiset(files');
      var j :| 0 <= j < |files'| && files'[j] == f;
      var rest, best' := OffersWithout(rank, files', u', j);
      BestIsUnique(rank, f, best, best');
      RemoveAt(files, n);
      RemoveAt(files', j);
      assert Without(files, n) == files[..n];
      OffersIgnoreOrder(rank, files[..n], Without(files', j), before, rest);
    }
  }

  lemma {:induction false} OffersAreTiles(rank: Rank, files: seq<File>, u: multiset<Chunk>, x: Chunk)
    requires Offers(rank, files, u) && x in u
    ensures exists f :: f in files && 0 !in f.data && Utf8.Valid(f.data) && x in Tiles(rank, f.path, f.data, 0)
    decreases |files|
  {
    var n := |files| - 1;
    var before, best := OffersLast(rank, files, u);
    if x in before {
      OffersAreTiles(rank, files[..n], before, x);
    } else {
      assert files[n] in files;
      assert x in multiset(Tiles(rank, files[n].path, files[n].data, 0));
    }
  }

  lemma OfferedBy(rank: Rank, files: seq<File>, u: multiset<Chunk>, x: Chunk) returns (f: File)
    requires Offers(rank, files, u) && x in u
    ensures f in files && x in Tiles(rank, f.path, f.data, 0) && x.path == f.path
  {
    OffersAreTiles(rank, files, u, x);
    f :| f in files && 0 !in f.data && Utf8.Valid(f.data) && x in Tiles(rank, f.path, f.data, 0);
    TilesAscend(rank, f.path, f.data, 0);
  }

  lemma OffersComparable(rank: Rank, files: seq<File>, u: multiset<Chunk>)
    requires Offers(rank, files, u)
    requires forall f, g :: f in files && g in files && f.path == g.path ==> f == g
    ensures Comparable(u)
  {
    forall x, y | x in u && y in u && x != y ensures Better(x, y) || Better(y, x) {
      var f := OfferedBy(rank, files, u, x);
      var g := OfferedBy(rank, files, u, y);
      if f == g { TilesAscend(rank, f.path, f.data, 0); }
      BetterIsOrder(x, y, x);
    }
  }

  /** Two scans of the same files, in any orders, admit the same chunks. */
  lemma AdmissionIgnoresOrder(rank: Rank, files: seq<File>, files': seq<File>, skip: bool, active: seq<byte>,
                              u: multiset<Chunk>, u': multiset<Chunk>,
                              kept: multiset<Chunk>, kept': multiset<Chunk>, room: nat)
    requires multiset(files) == multiset(files')
    requires forall f, g :: f in files && g in files && f.path == g.path ==> f == g
    requires Offers(rank, Others(files, skip, active), u) && IsTop(kept, u, room)
    requires Offers(rank, Others(files', skip, active), u') && IsTop(kept', u', room)
    ensures kept == kept'
  {
    OthersSame(files, files', skip, active);
    OthersAreFiles(files, skip, active);
    ScansAgree(rank, Others(files, skip, active), Others(files', skip, active), u, u', kept, kept', room);
  }

  lemma ScansAgree(rank: Rank, files: seq<File>, files': seq<File>, u: multiset<Chunk>, u': multiset<Chunk>,
                   kept: multiset<Chunk>, kept': multiset<Chunk>, room: nat)
    requires multiset(files) == multiset(files')
    requires forall f, g :: f in files && g in files && f.path == g.path ==> f == g
    requires Offers(rank, files, u) && IsTop(kept, u, room)
    requires Offers(rank, files', u') && IsTop(kept', u', room)
    ensures kept == kept'
  {
    OffersIgnoreOrder(rank, files, files', u, u');
    OffersComparable(rank, files, u);
    TopIsUnique(kept, kept', u, room);
  }
}
