/** Cutting a file's text into chunks at line ends and character boundaries. */
module Tiling {
  import opened Utf8
  import opened TopK

  const CODE_CHUNK: nat := 2048
  const NEWLINE: byte := 10

  /** The query's admission scores: any natural number for each path and text, zero by default. */
  type Rank = map<(seq<byte>, seq<byte>), nat>

  function Score(rank: Rank, path: seq<byte>, text: seq<byte>): nat {
    if (path, text) in rank then rank[(path, text)] else 0
  }

  /** Just after the last newline of [off, end), or off when there is none. */
  function LastBreak(data: seq<byte>, off: nat, end: nat): (r: nat)
    requires off <= end <= |data|
    ensures off <= r <= end && (r > off ==> data[r - 1] == NEWLINE)
    ensures forall k :: r <= k < end ==> data[k] != NEWLINE
    decreases end
  {
    if end == off then off
    else if data[end - 1] == NEWLINE then end
    else LastBreak(data, off, end - 1)
  }

  function NextBoundary(data: seq<byte>, end: nat): (r: nat)
    requires end <= |data|
    ensures end <= r <= |data| && Boundary(data, r)
    ensures forall k :: end <= k < r ==> Continuation(data[k])
    decreases |data| - end
  {
    if end < |data| && Continuation(data[end]) then NextBoundary(data, end + 1) else end
  }

  /** The end of the chunk that starts at off. */
  function TileEnd(data: seq<byte>, off: nat): (r: nat)
    requires off < |data|
    ensures off < r <= |data|
  {
    if |data| - off <= CODE_CHUNK then |data|
    else
      var limit := off + CODE_CHUNK;
      var b := LastBreak(data, off, limit);
      NextBoundary(data, if b == off then limit else b)
  }

  method ChunkEnd(data: seq<byte>, off: nat) returns (end: nat)
    requires off < |data|
    ensures end == TileEnd(data, off)
  {
    end := if |data| - off > CODE_CHUNK then off + CODE_CHUNK else |data|;
    if end < |data| {
      ghost var limit := end;
      while end > off && data[end - 1] != NEWLINE
        invariant off <= end <= limit
        invariant LastBreak(data, off, end) == LastBreak(data, off, limit)
      {
        end := end - 1;
      }
      if end == off {
        end := off + CODE_CHUNK;
      }
      ghost var cut := end;
      while end < |data| && Continuation(data[end])
        invariant cut <= end <= |data|
        invariant NextBoundary(data, end) == NextBoundary(data, cut)
      {
        end := end + 1;
      }
    }
  }

  function Newlines(s: seq<byte>): nat {
    if s == [] then 0 else Newlines(s[..|s| - 1]) + (if s[|s| - 1] == NEWLINE then 1 else 0)
  }

  /** The line counter moves by the newlines passed over. */
  method CountLines(data: seq<byte>, off: nat, end: nat) returns (line: nat)
    requires off <= end <= |data|
    ensures Newlines(data[..off]) + line == Newlines(data[..end])
  {
    line := 0;
    for i := off to end
      invariant Newlines(data[..off]) + line == Newlines(data[..i])
    {
      assert data[..i + 1][..i] == data[..i];
      if data[i] == NEWLINE { line := line + 1; }
    }
  }

  function ChunkAt(rank: Rank, path: seq<byte>, data: seq<byte>, off: nat, end: nat): Chunk
    requires off < end <= |data|
  {
    LastLineCounted(data, end);
    var endLine := 1 + Newlines(data[..end]);
    Chunk(path, data[off..end], 1 + Newlines(data[..off]),
          if data[end - 1] == NEWLINE then endLine - 1 else endLine, off, Score(rank, path, data[off..end]))
  }

  function Tile(rank: Rank, path: seq<byte>, data: seq<byte>, off: nat): Chunk
    requires off < |data|
  {
    ChunkAt(rank, path, data, off, TileEnd(data, off))
  }

  lemma LastLineCounted(data: seq<byte>, end: nat)
    requires 0 < end <= |data|
    ensures data[end - 1] == NEWLINE ==> Newlines(data[..end]) >= 1
  {
  }

  function Tiles(rank: Rank, path: seq<byte>, data: seq<byte>, off: nat): seq<Chunk>
    requires off <= |data|
    decreases |data| - off
  {
    if off == |data| then []
    else [Tile(rank, path, data, off)] + Tiles(rank, path, data, TileEnd(data, off))
  }

  /** The loop has produced the first m of the file's tiles and stands at their end. */
  ghost predicate TilingAt(rank: Rank, path: seq<byte>, data: seq<byte>, off: nat, line: nat, m: nat, all: seq<Chunk>) {
    && off <= |data| && line == 1 + Newlines(data[..off])
    && m <= |all| && all[m..] == Tiles(rank, path, data, off)
  }

  lemma TilingStarts(rank: Rank, path: seq<byte>, data: seq<byte>)
    ensures TilingAt(rank, path, data, 0, 1, 0, Tiles(rank, path, data, 0))
  {
  }

  lemma TilingEnds(rank: Rank, path: seq<byte>, data: seq<byte>, line: nat, m: nat, all: seq<Chunk>)
    requires TilingAt(rank, path, data, |data|, line, m, all)
    ensures m == |all|
  {
    assert all[m..] == [];
  }

  /** One step of the tiling loop: the view, where it ends, and the line counter there. */
  method NextTile(rank: Rank, path: seq<byte>, data: seq<byte>, off: nat, line: nat, ghost m: nat,
                  ghost all: seq<Chunk>)
    returns (view: Chunk, end: nat, next: nat)
    requires off < |data| && TilingAt(rank, path, data, off, line, m, all)
    ensures off < end <= |data| && m < |all| && view == all[m]
    ensures TilingAt(rank, path, data, end, next, m + 1, all)
  {
    end := ChunkEnd(data, off);
    var passed := CountLines(data, off, end);
    next := line + passed;
    LastLineCounted(data, end);
    view := Chunk(path, data[off..end], line, if data[end - 1] == NEWLINE then next - 1 else next, off,
                  Score(rank, path, data[off..end]));
    assert view == Tile(rank, path, data, off);
    assert all[m + 1..] == all[m..][1..];
  }

  // ---------------------------------------------------------------- what the tiling guarantees

  lemma TileEndIsNear(data: seq<byte>, off: nat)
    requires Valid(data) && off < |data|
    ensures TileEnd(data, off) <= off + CODE_CHUNK + 3
    ensures Boundary(data, TileEnd(data, off))
  {
    if |data| - off > CODE_CHUNK {
      var limit := off + CODE_CHUNK;
      var b := LastBreak(data, off, limit);
      var cut := if b == off then limit else b;
      if NextBoundary(data, cut) > cut + 3 {
        ShortRuns(data, cut);
        assert false;
      }
    }
  }

  predicate IsLine(data: seq<byte>, k: nat) { k < |data| && data[k] == 10 }

  /** Where a chunk ends: with the file, when no more than 2048 bytes are left; else just after the last
    * newline among the next 2048 bytes; else, if there is none, at the first boundary after them. */
  ghost predicate EndsAsItShould(data: seq<byte>, off: nat, end: nat) {
    var limit := off + 2048;
    && off < end <= |data|
    && (if |data| <= limit then end == |data|
        else if exists k :: off <= k < limit && IsLine(data, k) then
          end <= limit && IsLine(data, end - 1) && forall k :: end <= k < limit ==> !IsLine(data, k)
        else limit <= end && Boundary(data, end) && forall k :: limit <= k < end ==> !Boundary(data, k))
  }

  lemma EndsAtLine(data: seq<byte>, off: nat, limit: nat, b: nat)
    requires Valid(data) && off < limit < |data| && limit == off + 2048 && b == LastBreak(data, off, limit) && b > off
    ensures NextBoundary(data, b) == b && EndsAsItShould(data, off, b)
  {
    AfterAscii(data, b - 1);
    assert IsLine(data, b - 1);
  }

  lemma EndsAtBoundary(data: seq<byte>, off: nat, limit: nat, end: nat)
    requires off < limit < |data| && limit == off + 2048 && LastBreak(data, off, limit) == off
    requires end == NextBoundary(data, limit)
    ensures EndsAsItShould(data, off, end)
  {
    assert forall k :: off <= k < limit ==> !IsLine(data, k);
  }

  lemma TileEndsAsItShould(data: seq<byte>, off: nat)
    requires Valid(data) && off < |data|
    ensures EndsAsItShould(data, off, TileEnd(data, off))
  {
    if |data| - off > CODE_CHUNK {
      var limit := off + CODE_CHUNK;
      var b := LastBreak(data, off, limit);
      if b > off { EndsAtLine(data, off, limit, b); } else { EndsAtBoundary(data, off, limit, TileEnd(data, off)); }
    }
  }

  ghost function LinePositions(s: seq<byte>): set<nat> {
    set k: nat | k < |s| && IsLine(s, k)
  }

  /** The newlines are counted. */
  lemma {:induction false} NewlinesCounted(s: seq<byte>)
    ensures Newlines(s) == |LinePositions(s)|
  {
    if s != [] {
      var n := |s| - 1;
      NewlinesCounted(s[..n]);
      assert forall k :: 0 <= k < n ==> s[..n][k] == s[k];
      assert LinePositions(s) == LinePositions(s[..n]) + if IsLine(s, n) then {n} else {};
    }
  }

  /** A chunk of the file: nonempty valid text, at most CODE_CHUNK + 3 bytes, at its offset, ending where
    * it should, with line numbers that are newline counts of the file's prefixes. */
  ghost predicate IsTileOf(c: Chunk, rank: Rank, path: seq<byte>, data: seq<byte>) {
    var end := c.offset + |c.text|;
    && c.path == path && 0 < |c.text| <= CODE_CHUNK + 3 && end <= |data|
    && c.text == data[c.offset..end] && Valid(c.text)
    && Boundary(data, c.offset) && Boundary(data, end) && EndsAsItShould(data, c.offset, end)
    && c.line == 1 + Newlines(data[..c.offset])
    && c.endLine == 1 + Newlines(data[..end]) - (if data[end - 1] == NEWLINE then 1 else 0)
    && c.score == Score(rank, path, c.text)
  }

  function Texts(tiles: seq<Chunk>): seq<byte> {
    if tiles == [] then [] else tiles[0].text + Texts(tiles[1..])
  }

  lemma ChunkAtIsTile(rank: Rank, path: seq<byte>, data: seq<byte>, off: nat, end: nat)
    requires off < end <= off + CODE_CHUNK + 3 && Boundary(data, off) && Boundary(data, end) && Valid(data[off..end])
    requires EndsAsItShould(data, off, end)
    ensures IsTileOf(ChunkAt(rank, path, data, off, end), rank, path, data)
  {
  }

  lemma TileIsTile(rank: Rank, path: seq<byte>, data: seq<byte>, off: nat)
    requires Valid(data) && Boundary(data, off) && off < |data|
    ensures IsTileOf(Tile(rank, path, data, off), rank, path, data)
    ensures Boundary(data, TileEnd(data, off))
  {
    TileEndIsNear(data, off);
    TileEndsAsItShould(data, off);
    SliceValid(data, off, TileEnd(data, off));
    ChunkAtIsTile(rank, path, data, off, TileEnd(data, off));
  }

  /** Chunks concatenate to the file: in order, without gap or overlap. */
  lemma {:induction false} TilesConcatenate(rank: Rank, path: seq<byte>, data: seq<byte>, off: nat)
    requires off <= |data|
    ensures Texts(Tiles(rank, path, data, off)) == data[off..]
    decreases |data| - off
  {
    if off < |data| {
      var end := TileEnd(data, off);
      TilesConcatenate(rank, path, data, end);
      assert data[off..] == data[off..end] + data[end..];
    }
  }

  /** Every chunk of a valid file is as promised. */
  lemma {:induction false} TilesAreTiles(rank: Rank, path: seq<byte>, data: seq<byte>, off: nat, c: Chunk)
    requires Valid(data) && Boundary(data, off) && c in Tiles(rank, path, data, off)
    ensures IsTileOf(c, rank, path, data)
    decreases |data| - off
  {
    TileIsTile(rank, path, data, off);
    if c != Tile(rank, path, data, off) {
      TilesAreTiles(rank, path, data, TileEnd(data, off), c);
    }
  }

  lemma {:induction false} TilesAscend(rank: Rank, path: seq<byte>, data: seq<byte>, off: nat)
    requires off <= |data|
    ensures forall c :: c in Tiles(rank, path, data, off) ==> c.path == path && c.offset >= off
    ensures var tiles := Tiles(rank, path, data, off);
            forall c, d :: c in tiles && d in tiles && c != d ==> c.offset != d.offset
    decreases |data| - off
  {
    if off < |data| {
      TilesAscend(rank, path, data, TileEnd(data, off));
    }
  }

  /** The admission order tells any two chunks of one file apart. */
  lemma TilesComparable(rank: Rank, path: seq<byte>, data: seq<byte>)
    ensures Comparable(multiset(Tiles(rank, path, data, 0)))
  {
    var all := multiset(Tiles(rank, path, data, 0));
    TilesAscend(rank, path, data, 0);
    forall x, y | x in all && y in all && x != y ensures Better(x, y) || Better(y, x) {
      BetterIsOrder(x, y, x);
    }
  }
}
