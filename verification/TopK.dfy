/** The admission order on chunks, and what it means to keep the best k of many. */
module TopK {
  import opened Utf8

  datatype Chunk = Chunk(path: seq<byte>, text: seq<byte>, line: nat, endLine: nat, offset: nat, score: nat)

  // ---------------------------------------------------------------- the order

  /** strcmp(a, b) < 0 on unsigned bytes. */
  predicate Less(a: seq<byte>, b: seq<byte>) {
    b != [] && (a == [] || a[0] < b[0] || (a[0] == b[0] && Less(a[1..], b[1..])))
  }

  predicate Better(a: Chunk, b: Chunk) {
    if a.score != b.score then a.score > b.score
    else if a.path != b.path then Less(a.path, b.path)
    else a.offset < b.offset
  }

  lemma {:induction false} LessTrichotomy(a: seq<byte>, b: seq<byte>)
    ensures a == b <==> !Less(a, b) && !Less(b, a)
    ensures !(Less(a, b) && Less(b, a))
  {
    if a != [] && b != [] && a[0] == b[0] {
      LessTrichotomy(a[1..], b[1..]);
      assert a == [a[0]] + a[1..] && b == [b[0]] + b[1..];
    }
  }

  lemma {:induction false} LessTransitive(a: seq<byte>, b: seq<byte>, c: seq<byte>)
    requires Less(a, b) && Less(b, c)
    ensures Less(a, c)
  {
    if a != [] && a[0] == b[0] == c[0] {
      LessTransitive(a[1..], b[1..], c[1..]);
    }
  }

  /** Better is a strict order; chunks neither of which is better share score, path and offset. */
  lemma BetterIsOrder(a: Chunk, b: Chunk, c: Chunk)
    ensures !Better(a, a)
    ensures !(Better(a, b) && Better(b, a))
    ensures Better(a, b) && Better(b, c) ==> Better(a, c)
    ensures !Better(a, b) && !Better(b, c) ==> !Better(a, c)
    ensures !Better(a, b) && !Better(b, a) <==> a.score == b.score && a.path == b.path && a.offset == b.offset
  {
    LessTrichotomy(a.path, b.path);
    LessTrichotomy(b.path, c.path);
    LessTrichotomy(a.path, c.path);
    if Less(a.path, b.path) && Less(b.path, c.path) { LessTransitive(a.path, b.path, c.path); }
    if Less(c.path, b.path) && Less(b.path, a.path) { LessTransitive(c.path, b.path, a.path); }
    if Less(a.path, c.path) && Less(c.path, b.path) { LessTransitive(a.path, c.path, b.path); }
  }

  // ---------------------------------------------------------------- the best k

  /** k of the chunks, or all when there are fewer, none worse than any left out. */
  ghost predicate IsTop(kept: multiset<Chunk>, all: multiset<Chunk>, k: nat) {
    && kept <= all
    && |kept| == (if |all| < k then |all| else k)
    && forall x, y {:trigger Better(y, x)} :: x in kept && y in all - kept ==> !Better(y, x)
  }

  ghost predicate IsWorst(worst: Chunk, kept: multiset<Chunk>) {
    worst in kept && forall x {:trigger Better(worst, x)} :: x in kept ==> !Better(worst, x)
  }

  lemma TopGrows(kept: multiset<Chunk>, all: multiset<Chunk>, k: nat, v: Chunk)
    requires IsTop(kept, all, k) && |kept| < k
    ensures IsTop(kept + multiset{v}, all + multiset{v}, k)
  {
    SameSize(kept, all);
    assert all + multiset{v} - (kept + multiset{v}) == multiset{};
  }

  lemma SameSize(a: multiset<Chunk>, b: multiset<Chunk>)
    requires a <= b && |a| == |b|
    ensures a == b
  {
    assert b == a + (b - a);
    assert |b - a| == 0;
  }

  lemma TopRejects(kept: multiset<Chunk>, all: multiset<Chunk>, k: nat, v: Chunk, worst: Chunk)
    requires IsTop(kept, all, k) && |kept| == k && IsWorst(worst, kept) && !Better(v, worst)
    ensures IsTop(kept, all + multiset{v}, k)
  {
    forall x, y | x in kept && y in all + multiset{v} - kept
      ensures !Better(y, x)
    {
      if y !in all - kept {
        assert y == v;
        BetterIsOrder(v, worst, x);
      }
    }
  }

  lemma TopReplaces(kept: multiset<Chunk>, all: multiset<Chunk>, k: nat, v: Chunk, worst: Chunk)
    requires IsTop(kept, all, k) && |kept| == k && IsWorst(worst, kept) && Better(v, worst)
    ensures IsTop(kept - multiset{worst} + multiset{v}, all + multiset{v}, k)
  {
    var t := kept - multiset{worst} + multiset{v};
    var a := all + multiset{v};
    assert t <= a && |t| == k;
    assert a - t == (all - kept) + multiset{worst};
    forall x, y | x in t && y in a - t
      ensures !Better(y, x)
    {
      BetterIsOrder(y, worst, x);
      BetterIsOrder(worst, v, x);
      BetterIsOrder(y, worst, v);
      assert x == v || x in kept;
      assert y == worst || y in all - kept;
    }
  }

  /** Any two chunks of the collection can be told apart by the order. */
  ghost predicate Comparable(all: multiset<Chunk>) {
    forall x, y {:trigger Better(x, y)} :: x in all && y in all && x != y ==> Better(x, y) || Better(y, x)
  }

  lemma Differ(a: multiset<Chunk>, b: multiset<Chunk>) returns (x: Chunk)
    requires a != b && |a| == |b|
    ensures a[x] > b[x]
  {
    if a <= b {
      SameSize(a, b);
      assert false;
    }
    x :| a[x] > b[x];
  }

  lemma Tied(a: multiset<Chunk>, b: multiset<Chunk>, all: multiset<Chunk>, k: nat, x: Chunk, y: Chunk)
    requires IsTop(a, all, k) && IsTop(b, all, k) && a[x] > b[x] && b[y] > a[y]
    ensures x != y && x in all && y in all && !Better(x, y) && !Better(y, x)
  {
    assert x in all - b && y in all - a;
  }

  /** With distinct keys there is only one best k. */
  lemma TopIsUnique(a: multiset<Chunk>, b: multiset<Chunk>, all: multiset<Chunk>, k: nat)
    requires IsTop(a, all, k) && IsTop(b, all, k) && Comparable(all)
    ensures a == b
  {
    if a != b {
      var x := Differ(a, b);
      var y := Differ(b, a);
      Tied(a, b, all, k, x, y);
      assert false;
    }
  }
}
