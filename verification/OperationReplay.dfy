/** Crash replay: an open-addressing table of reservations that refines a finite map.
  * The empty id marks a free slot, as in the source. */
module OperationReplay {
  import opened Statuses
  import opened Consumption

  const FIRST_CAP: nat := 256
  const FREE := Reservation("", Identity([], [], []), 0, 0, false)

  // ---------------------------------------------------------------- probe sequences

  /** Capacities are 256 doubled some number of times. */
  predicate IsCap(n: nat) { n == FIRST_CAP || (n > FIRST_CAP && n % 2 == 0 && IsCap(n / 2)) }

  /** How a key and a capacity choose the slot where probing starts. The table is
    * correct for every such choice; `FnvHome` is the one the source makes. */
  type Hashing = f: (string, nat) -> nat | forall id, cap :: cap > 0 ==> f(id, cap) < cap witness (id, cap) => 0

  /** FNV-1a over the id's bytes, wrapping at 64 bits. */
  function Fnv(id: string, h: bv64 := 2166136261): bv64 {
    if id == [] then h else Fnv(id[1..], (h ^ ((id[0] as int % 256) as bv64)) * 16777619)
  }

  /** Masking by a power of two is the remainder. */
  function FnvHome(): Hashing {
    (id: string, cap: nat) => if cap > 0 then (Fnv(id) as int) % cap else 0
  }

  function Probe(home: nat, j: nat, cap: nat): nat
    requires home < cap && j < cap
    ensures Probe(home, j, cap) < cap
  {
    if home + j < cap then home + j else home + j - cap
  }

  function Distance(home: nat, i: nat, cap: nat): nat
    requires home < cap && i < cap
    ensures Distance(home, i, cap) < cap
    ensures Probe(home, Distance(home, i, cap), cap) == i
  {
    if i >= home then i - home else i - home + cap
  }

  // ---------------------------------------------------------------- the abstraction

  /** No free slot and no other copy of the key on the way to slot i. */
  ghost predicate Reaches(f: Hashing, s: seq<Reservation>, id: string, i: nat)
    requires i < |s|
  {
    var home := f(id, |s|);
    forall j: nat :: j < Distance(home, i, |s|) ==>
      s[Probe(home, j, |s|)].id != "" && s[Probe(home, j, |s|)].id != id
  }

  ghost predicate Chained(f: Hashing, s: seq<Reservation>) {
    forall i: nat :: i < |s| && s[i].id != "" ==> Reaches(f, s, s[i].id, i)
  }

  /** The slots hold exactly the bindings of the map. */
  ghost predicate Refines(s: seq<Reservation>, m: map<string, Reservation>) {
    && "" !in m
    && (forall i :: 0 <= i < |s| && s[i].id != "" ==> s[i].id in m && m[s[i].id] == s[i])
    && (forall id :: id in m ==> exists i :: 0 <= i < |s| && s[i].id == id)
  }

  ghost predicate Holds(f: Hashing, s: seq<Reservation>, m: map<string, Reservation>) {
    Chained(f, s) && Refines(s, m)
  }

  lemma {:induction false} Cardinality(a: set<string>, b: set<string>)
    requires a <= b
    ensures |a| <= |b|
  {
    if a != {} {
      var x :| x in a;
      Cardinality(a - {x}, b - {x});
    }
  }

  /** Two places that a key's probe reaches and stops at are one place. */
  lemma StopsOnce(f: Hashing, s: seq<Reservation>, id: string, h: nat, i: nat)
    requires h < |s| && i < |s| && id != ""
    requires Reaches(f, s, id, h) && (s[h].id == "" || s[h].id == id)
    requires Reaches(f, s, id, i) && s[i].id == id
    ensures h == i
  {
    var home := f(id, |s|);
    var di, dh := Distance(home, i, |s|), Distance(home, h, |s|);
    assert s[Probe(home, di, |s|)] == s[i] && s[Probe(home, dh, |s|)] == s[h];
    assert di == dh;
  }

  ghost predicate Distinct(s: seq<Reservation>) {
    forall i, k :: 0 <= i < k < |s| && s[i].id != "" ==> s[i].id != s[k].id
  }

  /** Chaining alone keeps keys from being stored twice. */
  lemma ChainedIsDistinct(f: Hashing, s: seq<Reservation>)
    requires Chained(f, s)
    ensures Distinct(s)
  {
    forall i, k | 0 <= i < k < |s| && s[i].id != ""
      ensures s[i].id != s[k].id
    {
      if s[i].id == s[k].id {
        StopsOnce(f, s, s[i].id, i, k);
        assert false;
      }
    }
  }

  lemma {:induction false} TakenSlotsAreDistinctKeys(s: seq<Reservation>, n: nat)
    requires n <= |s| && Distinct(s)
    requires forall i :: 0 <= i < n ==> s[i].id != ""
    ensures |set i | 0 <= i < n :: s[i].id| == n
  {
    if n > 0 {
      TakenSlotsAreDistinctKeys(s, n - 1);
      var before := set i | 0 <= i < n - 1 :: s[i].id;
      assert (set i | 0 <= i < n :: s[i].id) == before + {s[n - 1].id};
      assert s[n - 1].id !in before;
    }
  }

  lemma FullTableIsNoLarger(f: Hashing, s: seq<Reservation>, m: map<string, Reservation>)
    requires Holds(f, s, m)
    requires forall i :: 0 <= i < |s| ==> s[i].id != ""
    ensures |s| <= |m|
  {
    ChainedIsDistinct(f, s);
    TakenSlotsAreDistinctKeys(s, |s|);
    Cardinality(set i | 0 <= i < |s| :: s[i].id, m.Keys);
    assert |m| == |m.Keys|;
  }

  /** Load below capacity leaves a free slot, so every probe ends. */
  lemma FreeSlot(f: Hashing, s: seq<Reservation>, m: map<string, Reservation>) returns (i: nat)
    requires Holds(f, s, m) && |m| < |s|
    ensures i < |s| && s[i].id == ""
  {
    if forall i :: 0 <= i < |s| ==> s[i].id != "" {
      FullTableIsNoLarger(f, s, m);
      assert false;
    }
    i :| 0 <= i < |s| && s[i].id == "";
  }

  /** Where the probe stops decides membership. */
  lemma ProbeDecides(f: Hashing, s: seq<Reservation>, m: map<string, Reservation>, id: string, h: nat)
    requires Chained(f, s) && Refines(s, m) && id != ""
    requires h < |s| && Reaches(f, s, id, h) && (s[h].id == "" || s[h].id == id)
    ensures id in m <==> s[h].id == id
    ensures id in m ==> m[id] == s[h]
  {
    if id in m {
      var i :| 0 <= i < |s| && s[i].id == id;
      StopsOnce(f, s, id, h, i);
    }
  }

  /** Storing a key where its probe stopped keeps the chains and binds exactly that key. */
  lemma StoreRefines(f: Hashing, s: seq<Reservation>, m: map<string, Reservation>, h: nat, r: Reservation)
    requires Holds(f, s, m) && r.id != ""
    requires h < |s| && Reaches(f, s, r.id, h) && (s[h].id == "" || s[h].id == r.id)
    ensures Holds(f, s[h := r], m[r.id := r])
  {
    var t := s[h := r];
    ProbeDecides(f, s, m, r.id, h);
    forall i: nat | i < |t| && t[i].id != ""
      ensures Reaches(f, t, t[i].id, i)
    {
      if i != h {
        assert Reaches(f, s, s[i].id, i);
      }
    }
    forall i: nat | i < |s| && i != h
      ensures s[i].id != r.id
    {
      if s[i].id == r.id {
        StopsOnce(f, s, r.id, h, i);
        assert false;
      }
    }
    assert t[h].id == r.id;
    forall id | id in m && id != r.id
      ensures exists i :: 0 <= i < |t| && t[i].id == id
    {
      var i :| 0 <= i < |s| && s[i].id == id;
      assert t[i].id == id;
    }
  }

  lemma OneKeyMore(m: map<string, Reservation>, r: Reservation)
    ensures |m[r.id := r]| == |m| + if r.id in m then 0 else 1
  {
    var next := m[r.id := r];
    assert next.Keys == m.Keys + {r.id};
    assert |next| == |next.Keys| && |m| == |m.Keys|;
  }

  /** m is the part of the book that has been copied from the first n slots. */
  ghost predicate Copies(m: map<string, Reservation>, book: map<string, Reservation>, s: seq<Reservation>, n: nat)
    requires n <= |s|
  {
    && m.Keys <= book.Keys
    && (forall id :: id in m ==> m[id] == book[id])
    && (forall k :: 0 <= k < n && s[k].id != "" ==> s[k].id in m)
  }

  lemma CopiesFit(m: map<string, Reservation>, book: map<string, Reservation>, s: seq<Reservation>, n: nat)
    requires n <= |s| && Copies(m, book, s, n)
    ensures |m| <= |book|
  {
    Cardinality(m.Keys, book.Keys);
    assert |m| == |m.Keys| && |book| == |book.Keys|;
  }

  ghost function Copied(m: map<string, Reservation>, r: Reservation): map<string, Reservation> {
    if r.id != "" then m[r.id := r] else m
  }

  lemma CopiesNext(m: map<string, Reservation>, book: map<string, Reservation>, s: seq<Reservation>, n: nat)
    requires n < |s| && Copies(m, book, s, n) && Refines(s, book)
    ensures Copies(Copied(m, s[n]), book, s, n + 1)
  {
  }

  lemma EmptyHolds(f: Hashing, s: seq<Reservation>)
    requires forall i :: 0 <= i < |s| ==> s[i] == FREE
    ensures Holds(f, s, map[])
  {
  }

  lemma CopiesAll(m: map<string, Reservation>, book: map<string, Reservation>, s: seq<Reservation>)
    requires Copies(m, book, s, |s|) && Refines(s, book)
    ensures m == book
  {
  }

  // ---------------------------------------------------------------- the table

  class Table {
    const hash: Hashing
    var slots: array<Reservation>
    var count: nat
    ghost var book: map<string, Reservation>

    /** Load is at most one half, and the slots refine the book. */
    ghost predicate Valid()
      reads this, slots
    {
      && (slots.Length == 0 || IsCap(slots.Length))
      && Holds(hash, slots[..], book)
      && count == |book| && 2 * count <= slots.Length
    }

    constructor (hash: Hashing)
      ensures Valid() && fresh(slots) && book == map[]
    {
      this.hash := hash;
      slots := new Reservation[0];
      count := 0;
      book := map[];
    }

    /** Linear probing ends at the key, or at the free slot where it belongs. */
    method SlotFor(table: array<Reservation>, id: string, ghost m: map<string, Reservation>) returns (h: nat)
      requires id != "" && table.Length > 0
      requires Holds(hash, table[..], m) && |m| < table.Length
      ensures h < table.Length
      ensures Reaches(hash, table[..], id, h)
      ensures table[h].id == "" || table[h].id == id
      ensures id in m <==> table[h].id == id
      ensures id in m ==> m[id] == table[h]
    {
      ghost var s := table[..];
      ghost var cap := table.Length;
      ghost var home := hash(id, cap);
      ghost var free := FreeSlot(hash, s, m);
      ghost var j: nat := 0;
      h := hash(id, table.Length);
      while table[h].id != "" && table[h].id != id
        invariant h < cap && j <= Distance(home, free, cap)
        invariant h == Probe(home, j, cap)
        invariant forall k: nat :: k < j ==>
                    s[Probe(home, k, cap)].id != "" && s[Probe(home, k, cap)].id != id
        decreases Distance(home, free, cap) - j
      {
        assert j != Distance(home, free, cap);
        h := if h + 1 == table.Length then 0 else h + 1;
        j := j + 1;
      }
      assert Distance(home, h, cap) == j;
      ProbeDecides(hash, s, m, id, h);
    }

    method Put(table: array<Reservation>, h: nat, r: Reservation, ghost m: map<string, Reservation>)
      requires Holds(hash, table[..], m) && r.id != ""
      requires h < table.Length && Reaches(hash, table[..], r.id, h) && (table[h].id == "" || table[h].id == r.id)
      modifies table
      ensures table[..] == old(table[..])[h := r]
      ensures Holds(hash, table[..], m[r.id := r])
    {
      StoreRefines(hash, table[..], m, h, r);
      table[h] := r;
      assert table[..] == old(table[..])[h := r];
    }

    method Insert(table: array<Reservation>, r: Reservation, ghost m: map<string, Reservation>)
      requires Holds(hash, table[..], m) && |m| < table.Length && r.id != ""
      modifies table
      ensures Holds(hash, table[..], m[r.id := r])
    {
      var h := SlotFor(table, r.id, m);
      Put(table, h, r, m);
    }

    method Rehash(grown: array<Reservation>)
      requires Holds(hash, slots[..], book) && Holds(hash, grown[..], map[])
      requires grown != slots && grown.Length > |book|
      modifies grown
      ensures Holds(hash, grown[..], book)
    {
      ghost var s, all := slots[..], book;
      ghost var m: map<string, Reservation> := map[];
      for i := 0 to slots.Length
        invariant slots[..] == s && Holds(hash, grown[..], m) && Copies(m, all, s, i)
      {
        CopiesFit(m, all, s, i);
        CopiesNext(m, all, s, i);
        m := CopyOne(grown, slots[i], m);
      }
      CopiesAll(m, all, s);
    }

    method CopyOne(grown: array<Reservation>, r: Reservation, ghost m: map<string, Reservation>)
      returns (ghost next: map<string, Reservation>)
      requires Holds(hash, grown[..], m) && |m| < grown.Length
      modifies grown
      ensures next == Copied(m, r) && Holds(hash, grown[..], next)
    {
      next := m;
      if r.id != "" {
        Insert(grown, r, m);
        next := m[r.id := r];
      }
    }

    /** Doubling the table rehashes every binding and loses none. */
    method Grow()
      requires Valid()
      modifies this`slots
      ensures Valid() && fresh(slots)
      ensures slots.Length == if old(slots.Length) == 0 then FIRST_CAP else 2 * old(slots.Length)
    {
      var cap := if slots.Length == 0 then FIRST_CAP else slots.Length * 2;
      var grown := NewTable(cap);
      Rehash(grown);
      slots := grown;
    }

    method NewTable(cap: nat) returns (grown: array<Reservation>)
      ensures fresh(grown) && grown.Length == cap && Holds(hash, grown[..], map[])
    {
      grown := new Reservation[cap](_ => FREE);
      EmptyHolds(hash, grown[..]);
    }

    /** What a row makes of the slot where its id belongs. */
    method Judge(row: Row, found: Reservation, ghost m: map<string, Reservation>) returns (ok: bool, r: Reservation)
      requires row.Decodable() && (row.reserved ==> |m| < OPERATIONS_MAX)
      requires row.id in m <==> found.id == row.id
      requires if row.id in m then m[row.id] == found else found.id == ""
      ensures match Consumption.Enter(m, row)
              case Failure(error) => !ok && error == PARSE
              case Success(entry) => ok && r.id == row.id && entry == Entry(m[row.id := r], r.reserved)
      ensures ok ==> (row.reserved <==> row.id !in m)
    {
      r := found;
      if row.reserved {
        if r.id != "" || row.delta < 0 || row.known || row.input != 0 || row.output != 0 { return false, r; }
        return true, Reservation(row.id, row.identity, row.day, row.delta, false);
      }
      if r.id == "" || r.settled || r.day != row.day || r.identity != row.identity ||
         row.delta != (if row.known then row.input + row.output - r.reserved else 0) { return false, r; }
      return true, r.(settled := true);
    }

    /** The table's decision on a row, and its new bindings, are those of the finite map. */
    method Enter(row: Row) returns (e: Status, reserved: int)
      requires Valid()
      modifies this, slots
      ensures fresh(slots) || slots == old(slots)
      ensures match Consumption.Enter(old(book), row)
              case Failure(error) => e == error != OK
              case Success(entry) => e == OK && Valid() && book == entry.book && reserved == entry.reserved
    {
      reserved := 0;
      if !row.Decodable() { return PARSE, 0; }
      if row.reserved && count >= OPERATIONS_MAX { return LIMIT, 0; }
      if row.reserved && count >= slots.Length / 2 {
        Grow();
      }
      if slots.Length == 0 { return PARSE, 0; }
      var h := SlotFor(slots, row.id, book);
      var ok, r := Judge(row, slots[h], book);
      if !ok { return PARSE, 0; }
      Bind(h, r, row.reserved);
      return OK, r.reserved;
    }

    /** Bind an id where its probe stopped, a new one only while the load stays at one half. */
    method Bind(h: nat, r: Reservation, isNew: bool)
      requires Valid() && r.id != "" && h < slots.Length && Reaches(hash, slots[..], r.id, h)
      requires slots[h].id == "" || slots[h].id == r.id
      requires (isNew <==> r.id !in book) && (isNew ==> count < slots.Length / 2)
      modifies this, slots
      ensures Valid() && slots == old(slots) && book == old(book)[r.id := r]
    {
      OneKeyMore(book, r);
      if isNew { count := count + 1; }
      Put(slots, h, r, book);
      book := book[r.id := r];
    }
  }

  class Loader {
    const table: Table
    var usage: Usage

    ghost predicate Valid()
      reads this, table, table.slots
    {
      table.Valid() && usage.lifetime.InRange() && usage.today.InRange()
    }

    constructor (day: int, hash: Hashing)
      ensures Valid() && fresh(table) && fresh(table.slots)
      ensures Replayed(table.book, usage) == Fresh(day)
    {
      table := new Table(hash);
      usage := Usage(Blank(day), Blank(day), day);
    }

    /** One journal row: the decision and the new state are those over the finite map. */
    method Observe(row: Row) returns (e: Status)
      requires Valid()
      modifies this, table, table.slots
      ensures fresh(table.slots) || table.slots == old(table.slots)
      ensures match Step(old(Replayed(table.book, usage)), row)
              case Failure(error) => e == error != OK
              case Success(next) => e == OK && Valid() && Replayed(table.book, usage) == next
      ensures usage.lifetime.InRange() && usage.today.InRange()
    {
      var reserved;
      e, reserved := table.Enter(row);
      if e != OK { return; }
      e := Charge(row, reserved);
    }

    method Charge(row: Row, reserved: int) returns (e: Status)
      requires usage.lifetime.InRange() && usage.today.InRange()
      modifies this`usage
      ensures usage.lifetime.InRange() && usage.today.InRange()
      ensures match Observed(old(usage), row, reserved)
              case None => e == PARSE
              case Some(next) => e == OK && usage == next
    {
      var ok, committed := Consumption.Observe(usage, row, reserved);
      if !ok { return PARSE; }
      usage := committed;
      e := OK;
    }
  }

  lemma {:induction false} ReplayStops(rows: seq<Row>, n: nat, day: int)
    requires n <= |rows| && Replay(rows[..n], day).Failure?
    ensures Replay(rows, day) == Replay(rows[..n], day)
    decreases |rows| - n
  {
    if n < |rows| {
      assert rows[..n + 1][..n] == rows[..n];
      ReplayStops(rows, n + 1, day);
    } else {
      assert rows[..n] == rows;
    }
  }

  /** Visiting the journal row by row accepts it exactly when replay over the finite map does. */
  method Visit(rows: seq<Row>, day: int) returns (e: Status, usage: Usage)
    ensures match Replay(rows, day)
            case Failure(error) => e == error != OK
            case Success(s) => e == OK && usage == s.usage
    ensures usage.lifetime.InRange() && usage.today.InRange()
  {
    var loader := new Loader(day, FnvHome());
    for i := 0 to |rows|
      invariant loader.Valid() && fresh(loader) && fresh(loader.table) && fresh(loader.table.slots)
      invariant Replay(rows[..i], day) == Success(Replayed(loader.table.book, loader.usage))
    {
      assert rows[..i + 1][..i] == rows[..i];
      e := loader.Observe(rows[i]);
      if e != OK {
        ReplayStops(rows, i + 1, day);
        return e, loader.usage;
      }
    }
    assert rows[..|rows|] == rows;
    return OK, loader.usage;
  }
}
