/** Streaming admission of repository chunks: text is tiled into chunks, each file keeps a
  * small shortlist, and the shortlists feed one bounded heap behind a pinned prefix. */
module RetrievalSelect {
  import opened Statuses
  import opened Utf8
  import opened TopK
  import opened Tiling
  import opened Admission
  import opened Evidence

  const CODE_MAX: nat := 1024

  // ---------------------------------------------------------------- the heap region

  function Parent(i: nat): nat
    requires i > 0
  {
    (i - 1) / 2
  }

  ghost predicate Below(h: seq<Chunk>, i: nat)
    requires 0 < i < |h|
  {
    !Better(h[Parent(i)], h[i])
  }

  ghost predicate BelowGrandparent(h: seq<Chunk>, i: nat)
    requires 0 < i < |h| && Parent(i) > 0
  {
    !Better(h[Parent(Parent(i))], h[i])
  }

  /** No parent is better than its child, so the root is the worst. */
  ghost predicate IsHeap(h: seq<Chunk>) {
    forall i {:trigger Below(h, i)} :: 0 < i < |h| ==> Below(h, i)
  }

  lemma {:induction false} RootIsNotBetter(h: seq<Chunk>, i: nat)
    requires IsHeap(h) && i < |h|
    ensures !Better(h[0], h[i])
  {
    if i > 0 {
      assert Below(h, i);
      RootIsNotBetter(h, Parent(i));
      BetterIsOrder(h[0], h[Parent(i)], h[i]);
    } else {
      BetterIsOrder(h[0], h[0], h[0]);
    }
  }

  lemma RootIsWorst(h: seq<Chunk>)
    requires IsHeap(h) && h != []
    ensures IsWorst(h[0], multiset(h))
  {
    forall x | x in multiset(h) ensures !Better(h[0], x) {
      var i: nat :| i < |h| && h[i] == x;
      RootIsNotBetter(h, i);
    }
  }

  function Swapped(h: seq<Chunk>, i: nat, j: nat): seq<Chunk>
    requires i < |h| && j < |h|
  {
    h[i := h[j]][j := h[i]]
  }

  /** The children of `pos` respect its parent, so that it may be exchanged with either. */
  ghost predicate Bridged(h: seq<Chunk>, pos: nat) {
    forall i {:trigger BelowGrandparent(h, i)} ::
      0 < i < |h| && Parent(i) == pos && pos > 0 ==> BelowGrandparent(h, i)
  }

  /** Heap except that `pos` may be worse than its parent asks. */
  ghost predicate HeapUp(h: seq<Chunk>, pos: nat) {
    && pos < |h| && Bridged(h, pos)
    && (forall i {:trigger Below(h, i)} :: 0 < i < |h| && i != pos ==> Below(h, i))
  }

  /** Heap except that `pos` may be better than its children. */
  ghost predicate HeapDown(h: seq<Chunk>, pos: nat) {
    && pos < |h| && Bridged(h, pos)
    && (forall i {:trigger Below(h, i)} :: 0 < i < |h| && Parent(i) != pos ==> Below(h, i))
  }

  lemma UpStep(h: seq<Chunk>, pos: nat)
    requires HeapUp(h, pos) && pos > 0 && Better(h[Parent(pos)], h[pos])
    ensures HeapUp(Swapped(h, Parent(pos), pos), Parent(pos))
  {
    var p := Parent(pos);
    var t := Swapped(h, p, pos);
    forall i | 0 < i < |t| && i != p ensures Below(t, i) {
      if i != pos {
        assert Below(h, i);
        if Parent(i) == pos {
          assert BelowGrandparent(h, i);
        } else {
          BetterIsOrder(h[pos], h[p], h[i]);
        }
      } else {
        BetterIsOrder(h[pos], h[p], h[pos]);
      }
    }
    forall i | 0 < i < |t| && Parent(i) == p && p > 0 ensures BelowGrandparent(t, i) {
      assert Below(h, p);
      if i != pos {
        assert Below(h, i);
      }
      BetterIsOrder(h[Parent(p)], h[p], h[i]);
    }
  }

  lemma DownStep(h: seq<Chunk>, pos: nat, child: nat)
    requires HeapDown(h, pos) && 0 < child < |h| && Parent(child) == pos
    requires forall i :: 0 < i < |h| && Parent(i) == pos ==> !Better(h[child], h[i])
    requires Better(h[pos], h[child])
    ensures HeapDown(Swapped(h, pos, child), child)
  {
    var t := Swapped(h, pos, child);
    forall i | 0 < i < |t| && Parent(i) != child ensures Below(t, i) {
      if Parent(i) == pos {
        BetterIsOrder(h[child], h[pos], h[child]);
      } else if i == pos {
        assert BelowGrandparent(h, child);
      } else {
        assert Below(h, i);
      }
    }
    forall i | 0 < i < |t| && Parent(i) == child && child > 0 ensures BelowGrandparent(t, i) {
      assert Below(h, i);
    }
  }

  /** The new last element rises while its parent is better. */
  method SiftUp(v: array<Chunk>, lo: nat, hi: nat)
    requires lo < hi <= v.Length && IsHeap(v[lo..hi - 1])
    modifies v
    ensures IsHeap(v[lo..hi]) && multiset(v[lo..hi]) == old(multiset(v[lo..hi]))
    ensures v[..lo] == old(v[..lo]) && v[hi..] == old(v[hi..])
  {
    var pos: nat := hi - lo - 1;
    LastMayRise(v[lo..hi - 1], v[lo..hi]);
    while pos > 0 && Better(v[lo + (pos - 1) / 2], v[lo + pos])
      invariant pos < hi - lo
      invariant HeapUp(v[lo..hi], pos)
      invariant multiset(v[lo..hi]) == old(multiset(v[lo..hi]))
      invariant v[..lo] == old(v[..lo]) && v[hi..] == old(v[hi..])
    {
      pos := Rise(v, lo, hi, pos);
    }
    HeapUpDone(v[lo..hi], pos);
  }

  method Rise(v: array<Chunk>, lo: nat, hi: nat, pos: nat) returns (parent: nat)
    requires lo < hi <= v.Length && HeapUp(v[lo..hi], pos) && 0 < pos && Better(v[lo..hi][Parent(pos)], v[lo..hi][pos])
    modifies v
    ensures parent < pos && HeapUp(v[lo..hi], parent) && multiset(v[lo..hi]) == old(multiset(v[lo..hi]))
    ensures v[..lo] == old(v[..lo]) && v[hi..] == old(v[hi..])
  {
    parent := (pos - 1) / 2;
    UpStep(v[lo..hi], pos);
    Exchange(v, lo, hi, parent, pos);
  }

  lemma LastMayRise(h: seq<Chunk>, longer: seq<Chunk>)
    requires IsHeap(h) && |longer| == |h| + 1 && longer[..|h|] == h
    ensures HeapUp(longer, |h|)
  {
    forall i | 0 < i < |longer| && i != |h| ensures Below(longer, i) {
      assert Below(h, i);
      assert longer[i] == h[i] && longer[Parent(i)] == h[Parent(i)];
    }
  }

  lemma HeapUpDone(h: seq<Chunk>, pos: nat)
    requires HeapUp(h, pos) && (pos > 0 ==> Below(h, pos))
    ensures IsHeap(h)
  {
  }

  /** Exchange two elements of the region. */
  method Exchange(v: array<Chunk>, lo: nat, hi: nat, i: nat, j: nat)
    requires lo <= hi <= v.Length && i < hi - lo && j < hi - lo && i != j
    modifies v
    ensures v[lo..hi] == Swapped(old(v[lo..hi]), i, j)
    ensures multiset(v[lo..hi]) == old(multiset(v[lo..hi]))
    ensures v[..lo] == old(v[..lo]) && v[hi..] == old(v[hi..])
  {
    ghost var h := v[lo..hi];
    v[lo + i], v[lo + j] := v[lo + j], v[lo + i];
    assert v[lo..hi] == Swapped(h, i, j);
  }

  /** The replaced root sinks below its worst child while it is better. */
  method SiftDown(v: array<Chunk>, lo: nat, hi: nat)
    requires lo < hi <= v.Length && HeapDown(v[lo..hi], 0)
    modifies v
    ensures IsHeap(v[lo..hi]) && multiset(v[lo..hi]) == old(multiset(v[lo..hi]))
    ensures v[..lo] == old(v[..lo]) && v[hi..] == old(v[hi..])
  {
    var pos: nat, count := 0, hi - lo;
    while true
      invariant pos < hi - lo
      invariant HeapDown(v[lo..hi], pos)
      invariant multiset(v[lo..hi]) == old(multiset(v[lo..hi]))
      invariant v[..lo] == old(v[..lo]) && v[hi..] == old(v[hi..])
      decreases hi - lo - pos
    {
      var child := pos * 2 + 1;
      if child >= count {
        LeafSettles(v[lo..hi], pos);
        return;
      }
      if child + 1 < count && Better(v[lo + child], v[lo + child + 1]) {
        child := child + 1;
      }
      ghost var h := v[lo..hi];
      ChildIsWorst(h, pos, child);
      if !Better(v[lo + pos], v[lo + child]) {
        HeapSettles(h, pos, child);
        return;
      }
      DownStep(h, pos, child);
      Exchange(v, lo, hi, pos, child);
      pos := child;
    }
  }

  lemma ChildIsWorst(h: seq<Chunk>, pos: nat, child: nat)
    requires pos < |h| && child < |h| && (child == 2 * pos + 1 || child == 2 * pos + 2)
    requires child == 2 * pos + 1 ==> 2 * pos + 2 >= |h| || !Better(h[child], h[2 * pos + 2])
    requires child == 2 * pos + 2 ==> Better(h[2 * pos + 1], h[child])
    ensures Parent(child) == pos
    ensures forall i :: 0 < i < |h| && Parent(i) == pos ==> !Better(h[child], h[i])
  {
    forall i | 0 < i < |h| && Parent(i) == pos ensures !Better(h[child], h[i]) {
      BetterIsOrder(h[child], h[i], h[child]);
    }
  }

  lemma LeafSettles(h: seq<Chunk>, pos: nat)
    requires HeapDown(h, pos) && 2 * pos + 1 >= |h|
    ensures IsHeap(h)
  {
    forall i | 0 < i < |h| ensures Below(h, i) {
    }
  }

  lemma HeapSettles(h: seq<Chunk>, pos: nat, child: nat)
    requires HeapDown(h, pos) && child < |h| && !Better(h[pos], h[child])
    requires forall i :: 0 < i < |h| && Parent(i) == pos ==> !Better(h[child], h[i])
    ensures IsHeap(h)
  {
    forall i | 0 < i < |h| ensures Below(h, i) {
      if Parent(i) == pos {
        BetterIsOrder(h[pos], h[child], h[i]);
      }
    }
  }

  lemma RootMaySink(h: seq<Chunk>, x: Chunk)
    requires IsHeap(h) && h != []
    ensures HeapDown(h[0 := x], 0)
  {
    forall i | 0 < i < |h| && Parent(i) != 0 ensures Below(h[0 := x], i) {
      assert Below(h, i);
    }
  }

  /** Append behind the heap and let it rise. */
  method Push(v: array<Chunk>, lo: nat, hi: nat, view: Chunk)
    requires lo <= hi < v.Length && IsHeap(v[lo..hi])
    modifies v
    ensures IsHeap(v[lo..hi + 1]) && v[..lo] == old(v[..lo])
    ensures multiset(v[lo..hi + 1]) == old(multiset(v[lo..hi])) + multiset{view}
  {
    PutBehind(v, lo, hi, view);
    SiftUp(v, lo, hi + 1);
  }

  method PutBehind(v: array<Chunk>, lo: nat, hi: nat, view: Chunk)
    requires lo <= hi < v.Length
    modifies v
    ensures v[lo..hi] == old(v[lo..hi]) && v[..lo] == old(v[..lo])
    ensures multiset(v[lo..hi + 1]) == old(multiset(v[lo..hi])) + multiset{view}
  {
    v[hi] := view;
    assert v[lo..hi + 1] == v[lo..hi] + [view];
  }

  /** Release the root and let the newcomer sink. */
  method ReplaceRoot(v: array<Chunk>, lo: nat, hi: nat, view: Chunk)
    requires lo < hi <= v.Length && IsHeap(v[lo..hi])
    modifies v
    ensures IsHeap(v[lo..hi]) && v[..lo] == old(v[..lo])
    ensures multiset(v[lo..hi]) == old(multiset(v[lo..hi])) - multiset{old(v[lo])} + multiset{view}
  {
    ghost var h := v[lo..hi];
    RootMaySink(h, view);
    v[lo] := view;
    assert v[lo..hi] == h[0 := view];
    SiftDown(v, lo, hi);
  }

  // ---------------------------------------------------------------- shortlist of one file

  /** The turn's stop flag and deadline, as read at each check. */
  datatype Check = Go | Cancelled | TimedOut
  {
    function Error(): Status { if this == TimedOut then TIMEOUT else CANCELLED }
  }

  type Stops = seq<Check>

  function CheckAt(stops: Stops, i: nat): Check {
    if i < |stops| then stops[i] else Go
  }

  /** The file's best few chunks so far: the first `kept` slots of the array. */
  ghost predicate Shortlisted(best: seq<Chunk>, kept: nat, seen: seq<Chunk>) {
    && |best| == CODE_FILE_CHUNKS && kept <= |best|
    && IsTop(multiset(best[..kept]), multiset(seen), CODE_FILE_CHUNKS)
  }

  method WorstSlot(best: array<Chunk>, kept: nat) returns (worst: nat)
    requires 0 < kept <= best.Length
    ensures worst < kept && IsWorst(best[worst], multiset(best[..kept]))
  {
    worst := 0;
    BetterIsOrder(best[0], best[0], best[0]);
    for i := 1 to kept
      invariant worst < i
      invariant forall j :: 0 <= j < i ==> !Better(best[worst], best[j])
    {
      if Better(best[worst], best[i]) {
        forall j | 0 <= j < i ensures !Better(best[i], best[j]) {
          BetterIsOrder(best[worst], best[i], best[j]);
        }
        BetterIsOrder(best[i], best[i], best[i]);
        worst := i;
      }
    }
  }

  lemma ReplaceInMultiset(s: seq<Chunk>, kept: nat, i: nat, v: Chunk)
    requires i < kept <= |s|
    ensures multiset(s[i := v][..kept]) == multiset(s[..kept]) - multiset{s[i]} + multiset{v}
  {
    assert s[i := v][..kept] == s[..kept][i := v];
  }

  lemma AddToMultiset(s: seq<Chunk>, kept: nat, v: Chunk)
    requires kept < |s|
    ensures multiset(s[kept := v][..kept + 1]) == multiset(s[..kept]) + multiset{v}
  {
    assert s[kept := v][..kept + 1] == s[..kept] + [v];
  }

  /** One view enters the shortlist, or replaces its worst, or is dropped. */
  method Offer(best: array<Chunk>, kept: nat, view: Chunk, ghost seen: seq<Chunk>) returns (kept': nat)
    requires Shortlisted(best[..], kept, seen)
    modifies best
    ensures Shortlisted(best[..], kept', seen + [view])
  {
    kept' := kept;
    ghost var s := best[..];
    assert multiset(seen + [view]) == multiset(seen) + multiset{view};
    if kept < CODE_FILE_CHUNKS {
      AddToMultiset(s, kept, view);
      TopGrows(multiset(s[..kept]), multiset(seen), CODE_FILE_CHUNKS, view);
      best[kept] := view;
      kept' := kept + 1;
      assert best[..] == s[kept := view];
    } else {
      var worst := WorstSlot(best, kept);
      if !Better(view, best[worst]) {
        TopRejects(multiset(s[..kept]), multiset(seen), CODE_FILE_CHUNKS, view, s[worst]);
        return;
      }
      ReplaceInMultiset(s, kept, worst, view);
      TopReplaces(multiset(s[..kept]), multiset(seen), CODE_FILE_CHUNKS, view, s[worst]);
      best[worst] := view;
      assert best[..] == s[worst := view];
    }
  }

  /** The tiles of a text file, as many as there is room for. */
  function PinnedOf(rank: Rank, path: seq<byte>, data: seq<byte>): seq<Chunk> {
    if 0 in data || !Utf8.Valid(data) then [] else Prefix(Tiles(rank, path, data, 0), CODE_MAX)
  }

  // ---------------------------------------------------------------- the selection

  /** A full heap whose root the newcomer does not beat stays the best of all. */
  lemma HeapRejects(h: seq<Chunk>, all: multiset<Chunk>, k: nat, view: Chunk)
    requires IsHeap(h) && IsTop(multiset(h), all, k) && |h| == k && (h != [] ==> !Better(view, h[0]))
    ensures IsTop(multiset(h), all + multiset{view}, k)
  {
    if h != [] {
      RootIsWorst(h);
      TopRejects(multiset(h), all, k, view, h[0]);
    }
  }

  lemma TextOffers(best: multiset<Chunk>, rank: Rank, path: seq<byte>, data: seq<byte>)
    requires 0 !in data && Utf8.Valid(data) && IsTop(best, multiset(Tiles(rank, path, data, 0)), CODE_FILE_CHUNKS)
    ensures IsBestOf(best, rank, path, data, false)
  {
  }

  class Selection {
    const v: array<Chunk>
    const activeFile: seq<byte>
    var n: nat
    var pinned: nat
    var candidates: nat
    var skippedBinary: nat
    var activeRead: bool
    /** What the source stores as a SHA-256 of the active file. */
    var activeData: seq<byte>
    /** Every view ever offered to the heap. */
    ghost var offered: multiset<Chunk>

    ghost function Pinned(): seq<Chunk>
      reads this, v
      requires pinned <= v.Length
    {
      v[..pinned]
    }

    ghost function Heap(): seq<Chunk>
      reads this, v
      requires pinned <= n <= v.Length
    {
      v[pinned..n]
    }

    /** The heap holds the best of everything offered that fits behind the pinned chunks. */
    ghost predicate Valid()
      reads this, v
    {
      && v.Length == CODE_MAX && pinned <= n <= CODE_MAX
      && IsHeap(Heap())
      && IsTop(multiset(Heap()), offered, CODE_MAX - pinned)
    }

    constructor (activeFile: seq<byte>)
      ensures Valid() && fresh(v) && this.activeFile == activeFile
      ensures n == pinned == candidates == skippedBinary == 0 && !activeRead && offered == multiset{}
    {
      v := new Chunk[CODE_MAX](_ => Chunk([], [], 0, 0, 0, 0));
      this.activeFile := activeFile;
      n, pinned, candidates, skippedBinary := 0, 0, 0, 0;
      activeRead, activeData, offered := false, [], multiset{};
    }

    /** An active chunk is pinned while there is room. */
    method RetainActive(view: Chunk, ghost sofar: seq<Chunk>)
      requires Valid() && n == pinned && offered == multiset{}
      requires Pinned() == Prefix(sofar, CODE_MAX)
      modifies this`n, this`pinned, v
      ensures Valid() && n == pinned
      ensures Pinned() == Prefix(sofar + [view], CODE_MAX)
    {
      PrefixSnoc(sofar, CODE_MAX, view);
      if n == CODE_MAX { return; }
      v[n] := view;
      n := n + 1;
      pinned := pinned + 1;
    }

    /** Any other chunk competes for the heap. */
    method Retain(view: Chunk)
      requires Valid()
      modifies this`n, this`offered, v
      ensures Valid() && Pinned() == old(Pinned())
      ensures offered == old(offered) + multiset{view}
    {
      var count := n - pinned;
      if n == CODE_MAX && (count == 0 || !Better(view, v[pinned])) {
        Reject(view);
      } else if n < CODE_MAX {
        Admit(view);
      } else {
        Replace(view);
      }
    }

    ghost method Reject(view: Chunk)
      requires Valid() && n == CODE_MAX && (n > pinned ==> !Better(view, v[pinned]))
      modifies this`offered
      ensures Valid() && offered == old(offered) + multiset{view}
    {
      HeapRejects(Heap(), offered, CODE_MAX - pinned, view);
      offered := offered + multiset{view};
    }

    method Admit(view: Chunk)
      requires Valid() && n < CODE_MAX
      modifies this`n, this`offered, v
      ensures Valid() && Pinned() == old(Pinned())
      ensures offered == old(offered) + multiset{view}
    {
      TopGrows(multiset(Heap()), offered, CODE_MAX - pinned, view);
      GrowHeap(view);
      offered := offered + multiset{view};
    }

    method GrowHeap(view: Chunk)
      requires pinned <= n < v.Length && IsHeap(Heap())
      modifies this`n, v
      ensures n == old(n) + 1 && IsHeap(Heap()) && v[..pinned] == old(v[..pinned])
      ensures multiset(Heap()) == old(multiset(Heap())) + multiset{view}
    {
      Push(v, pinned, n, view);
      n := n + 1;
    }

    method Replace(view: Chunk)
      requires Valid() && pinned < n == CODE_MAX && Better(view, v[pinned])
      modifies this`n, this`offered, v
      ensures Valid() && Pinned() == old(Pinned())
      ensures offered == old(offered) + multiset{view}
    {
      ghost var h := Heap();
      RootIsWorst(h);
      TopReplaces(multiset(h), offered, CODE_MAX - pinned, view, h[0]);
      ReplaceRoot(v, pinned, n, view);
      offered := offered + multiset{view};
    }

    /** Cut the next tile and offer it to the shortlist. */
    method OfferTile(rank: Rank, path: seq<byte>, data: seq<byte>, off: nat, line: nat, best: array<Chunk>, kept: nat,
                     ghost m: nat, ghost all: seq<Chunk>)
      returns (next: nat, nextLine: nat, n': nat)
      requires off < |data| && TilingAt(rank, path, data, off, line, m, all)
      requires Shortlisted(best[..], kept, all[..m])
      modifies best
      ensures off < next <= |data| && TilingAt(rank, path, data, next, nextLine, m + 1, all)
      ensures Shortlisted(best[..], n', all[..m + 1])
    {
      var view;
      view, next, nextLine := NextTile(rank, path, data, off, line, m, all);
      TakeSnoc(all, m);
      n' := Offer(best, kept, view, all[..m]);
    }

    /** The shortlisting pass of a file that is not the active one. */
    method Shortlist(rank: Rank, path: seq<byte>, data: seq<byte>, stops: Stops)
      returns (stopped: Check, best: array<Chunk>, kept: nat)
      modifies this`candidates
      ensures fresh(best)
      ensures stopped == Go ==>
                && Shortlisted(best[..], kept, Tiles(rank, path, data, 0))
                && candidates == old(candidates) + |Tiles(rank, path, data, 0)|
    {
      best := new Chunk[CODE_FILE_CHUNKS](_ => Chunk([], [], 0, 0, 0, 0));
      kept := 0;
      var off, line, check := 0, 1, 1;
      ghost var all, m := Tiles(rank, path, data, 0), 0;
      TilingStarts(rank, path, data);
      while off < |data|
        invariant TilingAt(rank, path, data, off, line, m, all)
        invariant fresh(best) && Shortlisted(best[..], kept, all[..m])
        invariant candidates == old(candidates) + m
        decreases |data| - off
      {
        if CheckAt(stops, check) != Go { return CheckAt(stops, check), best, kept; }
        check := check + 1;
        candidates := candidates + 1;
        off, line, kept := OfferTile(rank, path, data, off, line, best, kept, m, all);
        m := m + 1;
      }
      TilingEnds(rank, path, data, line, m, all);
      assert all[..m] == all;
      stopped := Go;
    }

    /** One file that is not the active one: its best few chunks are offered to the heap. */
    method SelectFile(rank: Rank, path: seq<byte>, data: seq<byte>, stops: Stops)
      returns (e: Status, ghost best: multiset<Chunk>)
      requires Valid()
      modifies this`n, this`candidates, this`skippedBinary, this`offered, v
      ensures Valid() && Pinned() == old(Pinned())
      ensures offered == old(offered) + best
      ensures e == OK ==> IsBestOf(best, rank, path, data, activeRead && path == activeFile)
      ensures !IsSource(File(path, data)) ==> offered == old(offered)
      ensures activeRead && path == activeFile && CheckAt(stops, 0) == Go ==>
                e == (if data == activeData then OK else BUSY)
    {
      best := multiset{};
      if CheckAt(stops, 0) != Go { return CheckAt(stops, 0).Error(), best; }
      if activeRead && path == activeFile {
        return if data == activeData then OK else BUSY, best;
      }
      if 0 in data || !Utf8.Valid(data) {
        SkipBinary();
        return OK, best;
      }
      e, best := SelectText(rank, path, data, stops);
      if e == OK { TextOffers(best, rank, path, data); }
    }

    method SkipBinary()
      requires Valid()
      modifies this`skippedBinary
      ensures Valid() && Pinned() == old(Pinned())
    {
      skippedBinary := skippedBinary + 1;
    }

    method SelectText(rank: Rank, path: seq<byte>, data: seq<byte>, stops: Stops)
      returns (e: Status, ghost best: multiset<Chunk>)
      requires Valid()
      modifies this`n, this`candidates, this`offered, v
      ensures Valid() && Pinned() == old(Pinned())
      ensures offered == old(offered) + best
      ensures e == OK ==> IsTop(best, multiset(Tiles(rank, path, data, 0)), CODE_FILE_CHUNKS)
    {
      best := multiset{};
      var stopped, shortlist, kept := Shortlist(rank, path, data, stops);
      if stopped != Go { return stopped.Error(), best; }
      best := multiset(shortlist[..kept]);
      RetainAll(shortlist, kept);
      return OK, best;
    }

    method RetainAll(shortlist: array<Chunk>, kept: nat)
      requires Valid() && kept <= shortlist.Length && shortlist != v
      modifies this`n, this`offered, v
      ensures Valid() && Pinned() == old(Pinned())
      ensures offered == old(offered) + multiset(shortlist[..kept])
    {
      ghost var chosen := shortlist[..];
      for i := 0 to kept
        invariant Valid() && Pinned() == old(Pinned()) && shortlist[..] == chosen
        invariant offered == old(offered) + multiset(chosen[..i])
      {
        AddLast(chosen, i);
        Retain(shortlist[i]);
      }
    }

    /** The active file, read first and once: its chunks are pinned in order while there is room. */
    method SelectActive(rank: Rank, data: seq<byte>, stops: Stops) returns (e: Status)
      requires Valid() && n == 0 && offered == multiset{}
      modifies this`n, this`pinned, this`candidates, this`skippedBinary, this`activeRead, this`activeData, v
      ensures Valid() && n == pinned
      ensures CheckAt(stops, 0) == Go ==> activeRead && activeData == data
      ensures e == OK ==> Pinned() == PinnedOf(rank, activeFile, data)
      ensures e == OK ==>
                if IsSource(File(activeFile, data)) then
                  var tiles := Tiles(rank, activeFile, data, 0);
                  Pinned() <= tiles && |Pinned()| == if |tiles| < 1024 then |tiles| else 1024
                else Pinned() == []
    {
      if CheckAt(stops, 0) != Go { return CheckAt(stops, 0).Error(); }
      activeRead, activeData := true, data;
      if 0 in data || !Utf8.Valid(data) {
        skippedBinary := skippedBinary + 1;
        return OK;
      }
      e := PinTiles(rank, data, stops);
    }

    /** The tiling pass of the active file. */
    method PinTiles(rank: Rank, data: seq<byte>, stops: Stops) returns (e: Status)
      requires Valid() && n == 0 && offered == multiset{}
      modifies this`n, this`pinned, this`candidates, v
      ensures Valid() && n == pinned
      ensures e == OK ==> Pinned() == Prefix(Tiles(rank, activeFile, data, 0), CODE_MAX)
    {
      var off, line, check := 0, 1, 1;
      ghost var all, m := Tiles(rank, activeFile, data, 0), 0;
      TilingStarts(rank, activeFile, data);
      while off < |data|
        invariant TilingAt(rank, activeFile, data, off, line, m, all)
        invariant Valid() && n == pinned
        invariant Pinned() == Prefix(all[..m], CODE_MAX)
        decreases |data| - off
      {
        if CheckAt(stops, check) != Go { return CheckAt(stops, check).Error(); }
        check := check + 1;
        var view;
        view, off, line := NextTile(rank, activeFile, data, off, line, m, all);
        candidates := candidates + 1;
        RetainActive(view, all[..m]);
        TakeSnoc(all, m);
        m := m + 1;
      }
      TilingEnds(rank, activeFile, data, line, m, all);
      assert all[..m] == all;
      return OK;
    }

    /** A scan of files, one after another; the active file, read already, offers nothing again. */
    method SelectFiles(rank: Rank, files: seq<File>, stops: seq<Stops>) returns (e: Status)
      requires Valid() && offered == multiset{}
      modifies this`n, this`candidates, this`skippedBinary, this`offered, v
      ensures Valid() && Pinned() == old(Pinned())
      ensures e == OK ==> Offers(rank, Others(files, activeRead, activeFile), offered)
      ensures e == OK ==> Selects(rank, Others(files, activeRead, activeFile), multiset(Heap()), 1024 - pinned)
    {
      for i := 0 to |files|
        invariant Valid() && Pinned() == old(Pinned())
        invariant Offers(rank, Others(files[..i], activeRead, activeFile), offered)
      {
        e := SelectNext(rank, files, i, if i < |stops| then stops[i] else []);
        if e != OK { return; }
      }
      assert files[..|files|] == files;
      HeapSelects(rank, Others(files, activeRead, activeFile));
      return OK;
    }

    lemma HeapSelects(rank: Rank, files: seq<File>)
      requires Valid() && Offers(rank, files, offered)
      ensures Selects(rank, files, multiset(Heap()), 1024 - pinned)
    {
      OffersSelect(rank, files, offered, multiset(Heap()), CODE_MAX - pinned);
    }

    method SelectNext(rank: Rank, files: seq<File>, i: nat, stops: Stops) returns (e: Status)
      requires Valid() && i < |files| && Offers(rank, Others(files[..i], activeRead, activeFile), offered)
      modifies this`n, this`candidates, this`skippedBinary, this`offered, v
      ensures Valid() && Pinned() == old(Pinned())
      ensures e == OK ==> Offers(rank, Others(files[..i + 1], activeRead, activeFile), offered)
    {
      ghost var before, best := offered, multiset{};
      e, best := SelectFile(rank, files[i].path, files[i].data, stops);
      OthersNext(files, activeRead, activeFile, i);
      ghost var o := Others(files[..i], activeRead, activeFile);
      if activeRead && files[i].path == activeFile {
        assert o + [] == o;
      } else if e == OK {
        OffersAdd(rank, o, files[i], before, best);
      }
    }
  }

  /** A scan, what it offers and what it keeps of that. */
  method SelectOnce(a: Selection, rank: Rank, files: seq<File>, stops: seq<Stops>)
    returns (e: Status, ghost offered: multiset<Chunk>, ghost heap: multiset<Chunk>)
    requires a.Valid() && a.offered == multiset{}
    modifies a, a.v
    ensures a.Valid() && a.Pinned() == old(a.Pinned()) && a.pinned == old(a.pinned) && a.activeRead == old(a.activeRead)
    ensures heap == multiset(a.Heap()) && IsTop(heap, offered, CODE_MAX - a.pinned)
    ensures e == OK ==> Offers(rank, Others(files, a.activeRead, a.activeFile), offered)
  {
    e := a.SelectFiles(rank, files, stops);
    offered, heap := a.offered, multiset(a.Heap());
  }

  /** Two selections of one workspace whose files are enumerated in different orders end with the
    * same chunks behind the pinned ones. */
  method SelectTwice(a: Selection, b: Selection, rank: Rank, files: seq<File>, files': seq<File>,
                     stops: seq<Stops>, stops': seq<Stops>)
    returns (e: Status, e': Status)
    requires a != b && a.v != b.v && a.Valid() && b.Valid()
    requires a.offered == b.offered == multiset{} && a.pinned == b.pinned
    requires a.activeRead == b.activeRead && a.activeFile == b.activeFile
    requires multiset(files) == multiset(files')
    requires forall f, g :: f in files && g in files && f.path == g.path ==> f == g
    modifies a, a.v, b, b.v
    ensures a.Valid() && b.Valid()
    ensures e == OK && e' == OK ==> multiset(a.Heap()) == multiset(b.Heap())
  {
    ghost var room := CODE_MAX - a.pinned;
    ghost var first, heap, second, heap';
    e, first, heap := SelectOnce(a, rank, files, stops);
    ghost var kept := a.Heap();
    e', second, heap' := SelectOnce(b, rank, files', stops');
    assert a.Heap() == kept;
    if e == OK && e' == OK {
      AdmissionIgnoresOrder(rank, files, files', a.activeRead, a.activeFile, first, second, heap, heap', room);
    }
  }
}
