/** The consumption reducer and what a journal of reservations and settlements means.
  *
  * A journal is a sequence of rows. `Replay` is the executable decision procedure
  * over a finite map of reservations; `Legal` and `Tally` are its independent
  * meaning: which journals are well formed, and what each window of days sums to. */
module Consumption {
  import opened Statuses
  import Utf8

  const INT64_MAX: int := 0x7FFF_FFFF_FFFF_FFFF
  const INT_MAX: int := 0x7FFF_FFFF
  /** The largest 64-bit second count in whole days of 86400 seconds. */
  const MAX_DAY: int := 106_751_991_167_300
  const OPERATIONS_MAX: nat := 131072

  // ---------------------------------------------------------------- data model

  type Text = seq<Utf8.byte>

  /** Provenance of an operation. The source stores a SHA-256 of the three
    * length-framed fields; the model keeps the fields, so hashing is injective. */
  datatype Identity = Identity(model: Text, kind: Text, request: Text)

  datatype Row = Row(id: string, identity: Identity, day: int, delta: int, input: int, output: int,
                     reserved: bool, known: bool, outcome: Status)
  {
    /** What the record decoder accepts. */
    predicate Decodable() {
      && id != ""
      && -MAX_DAY <= day <= MAX_DAY
      && -INT64_MAX - 1 <= delta <= INT64_MAX
      && 0 <= input <= INT_MAX
      && 0 <= output <= INT_MAX
      && (reserved ==> outcome == OK)
    }
  }

  datatype Calls = Calls(all: int, unsettled: int, unknown: int, failed: int, cancelled: int)

  datatype Tokens = Tokens(knownInput: int, knownOutput: int, unsettled: int, unknown: int, charged: int)

  datatype Totals = Totals(calls: Calls, tokens: Tokens)
  {
    predicate InRange() {
      && 0 <= calls.all <= INT64_MAX && 0 <= calls.unsettled <= INT64_MAX && 0 <= calls.unknown <= INT64_MAX
      && 0 <= calls.failed <= INT64_MAX && 0 <= calls.cancelled <= INT64_MAX
      && 0 <= tokens.knownInput <= INT64_MAX && 0 <= tokens.knownOutput <= INT64_MAX
      && 0 <= tokens.unsettled <= INT64_MAX && 0 <= tokens.unknown <= INT64_MAX
      && 0 <= tokens.charged <= INT64_MAX
    }

    predicate IsZero() {
      && calls.all == 0 && calls.unsettled == 0 && calls.unknown == 0 && calls.failed == 0 && calls.cancelled == 0
      && tokens.knownInput == 0 && tokens.knownOutput == 0
      && tokens.unsettled == 0 && tokens.unknown == 0 && tokens.charged == 0
    }

    /** Conservation: nothing is charged that is not known, unknown or outstanding,
      * and every call is outstanding, or settled with one outcome. */
    predicate Balanced() {
      && 0 <= calls.all && 0 <= calls.unsettled && 0 <= calls.unknown && 0 <= calls.failed && 0 <= calls.cancelled
      && 0 <= tokens.knownInput && 0 <= tokens.knownOutput && 0 <= tokens.unsettled && 0 <= tokens.unknown
      && tokens.charged == tokens.knownInput + tokens.knownOutput + tokens.unknown + tokens.unsettled
      && calls.unsettled + calls.unknown <= calls.all
      && calls.unsettled + calls.failed + calls.cancelled <= calls.all
    }
  }

  lemma ZeroExists()
    ensures exists z: Totals :: z.IsZero()
  {
    assert Totals(Calls(0, 0, 0, 0, 0), Tokens(0, 0, 0, 0, 0)).IsZero();
  }

  /** The counters before a first row, whatever they are of: the one value that is all zero. */
  function Blank(of: int): (z: Totals)
    ensures z.IsZero()
  {
    ZeroExists();
    var z: Totals :| z.IsZero();
    z
  }

  datatype Usage = Usage(lifetime: Totals, today: Totals, utcDay: int)

  datatype Reservation = Reservation(id: string, identity: Identity, day: int, reserved: int, settled: bool)

  // ---------------------------------------------------------------- the reducer

  predicate CanAdd(value: int, delta: int) {
    !((delta > 0 && value > INT64_MAX - delta) || (delta < 0 && (value < 0 || delta < -value)))
  }

  function Count(b: bool): int { if b then 1 else 0 }
  function Only(b: bool, n: int): int { if b then n else 0 }

  /** The effect of a row on one set of counters, in unbounded integers. */
  function Charge(t: Totals, row: Row, reserved: int): Totals {
    var settles := !row.reserved;
    Totals(
      Calls(t.calls.all + Count(row.reserved),
            t.calls.unsettled + Count(row.reserved) - Count(settles),
            t.calls.unknown + Count(settles && !row.known),
            t.calls.failed + Count(settles && row.outcome != OK && row.outcome != CANCELLED),
            t.calls.cancelled + Count(settles && row.outcome == CANCELLED)),
      Tokens(t.tokens.knownInput + Only(settles && row.known, row.input),
             t.tokens.knownOutput + Only(settles && row.known, row.output),
             t.tokens.unsettled + Only(row.reserved, reserved) - Only(settles, reserved),
             t.tokens.unknown + Only(settles && !row.known, reserved),
             t.tokens.charged + row.delta))
  }

  /** One checked 64-bit addition at a time: succeeds exactly when the
    * mathematical result fits, and then is that result. */
  method ObserveTotals(t: Totals, row: Row, reserved: int) returns (ok: bool, next: Totals)
    requires t.InRange()
    ensures ok <==> reserved >= 0 && Charge(t, row, reserved).InRange()
    ensures next == if ok then Charge(t, row, reserved) else t
  {
    next := t;
    var calls, tokens := t.calls, t.tokens;
    if reserved < 0 || !CanAdd(tokens.charged, row.delta) { return false, next; }
    tokens := tokens.(charged := tokens.charged + row.delta);
    if row.reserved {
      if !CanAdd(calls.all, 1) { return false, next; }
      calls := calls.(all := calls.all + 1);
      if !CanAdd(calls.unsettled, 1) { return false, next; }
      calls := calls.(unsettled := calls.unsettled + 1);
      if !CanAdd(tokens.unsettled, reserved) { return false, next; }
      tokens := tokens.(unsettled := tokens.unsettled + reserved);
      return true, Totals(calls, tokens);
    }
    if !CanAdd(calls.unsettled, -1) { return false, next; }
    calls := calls.(unsettled := calls.unsettled - 1);
    if !CanAdd(tokens.unsettled, -reserved) { return false, next; }
    tokens := tokens.(unsettled := tokens.unsettled - reserved);
    if row.known {
      if !CanAdd(tokens.knownInput, row.input) { return false, next; }
      tokens := tokens.(knownInput := tokens.knownInput + row.input);
      if !CanAdd(tokens.knownOutput, row.output) { return false, next; }
      tokens := tokens.(knownOutput := tokens.knownOutput + row.output);
    } else {
      if !CanAdd(calls.unknown, 1) { return false, next; }
      calls := calls.(unknown := calls.unknown + 1);
      if !CanAdd(tokens.unknown, reserved) { return false, next; }
      tokens := tokens.(unknown := tokens.unknown + reserved);
    }
    if row.outcome == CANCELLED {
      if !CanAdd(calls.cancelled, 1) { return false, next; }
      calls := calls.(cancelled := calls.cancelled + 1);
    } else if row.outcome != OK {
      if !CanAdd(calls.failed, 1) { return false, next; }
      calls := calls.(failed := calls.failed + 1);
    }
    return true, Totals(calls, tokens);
  }

  function Rolled(u: Usage, day: int): Usage {
    if day > u.utcDay then u.(utcDay := day, today := Blank(day)) else u
  }

  /** The streaming reducer: roll, charge the lifetime, charge today when the row is of today. */
  function Observed(u: Usage, row: Row, reserved: int): Option<Usage> {
    var r := Rolled(u, row.day);
    var lifetime := Charge(r.lifetime, row, reserved);
    var today := if row.day == r.utcDay then Charge(r.today, row, reserved) else r.today;
    if reserved >= 0 && lifetime.InRange() && (row.day == r.utcDay ==> today.InRange())
    then Some(Usage(lifetime, today, r.utcDay))
    else None
  }

  method Observe(u: Usage, row: Row, reserved: int) returns (ok: bool, committed: Usage)
    requires u.lifetime.InRange() && u.today.InRange()
    ensures Observed(u, row, reserved) == if ok then Some(committed) else None
    ensures !ok ==> committed == u
  {
    var next := u;
    next := Rolled(next, row.day);
    var done, lifetime := ObserveTotals(next.lifetime, row, reserved);
    if !done { return false, u; }
    next := next.(lifetime := lifetime);
    if row.day == next.utcDay {
      var counted, today := ObserveTotals(next.today, row, reserved);
      if !counted { return false, u; }
      next := next.(today := today);
    }
    return true, next;
  }

  // ---------------------------------------------------------------- replay over a finite map

  datatype Replayed = Replayed(book: map<string, Reservation>, usage: Usage)

  datatype Entry = Entry(book: map<string, Reservation>, reserved: int)

  /** What a row does to the book: a fresh reservation, or the settlement of an outstanding one. */
  function Enter(book: map<string, Reservation>, row: Row): Result<Entry> {
    if !row.Decodable() then Failure(PARSE)
    else if row.reserved then
      if |book| >= OPERATIONS_MAX then Failure(LIMIT)
      else if row.id in book || row.delta < 0 || row.known || row.input != 0 || row.output != 0 then Failure(PARSE)
      else Success(Entry(book[row.id := Reservation(row.id, row.identity, row.day, row.delta, false)], row.delta))
    else if row.id !in book then Failure(PARSE)
    else
      var r := book[row.id];
      if r.settled || r.day != row.day || r.identity != row.identity ||
         row.delta != (if row.known then row.input + row.output - r.reserved else 0) then Failure(PARSE)
      else Success(Entry(book[row.id := r.(settled := true)], r.reserved))
  }

  function Step(s: Replayed, row: Row): Result<Replayed> {
    match Enter(s.book, row)
    case Failure(e) => Failure(e)
    case Success(entry) =>
      match Observed(s.usage, row, entry.reserved)
      case None => Failure(PARSE)
      case Some(u) => Success(Replayed(entry.book, u))
  }

  function Fresh(day: int): Replayed {
    Replayed(map[], Usage(Blank(day), Blank(day), day))
  }

  function Replay(rows: seq<Row>, day: int): Result<Replayed> {
    if rows == [] then Success(Fresh(day))
    else
      match Replay(rows[..|rows| - 1], day)
      case Failure(e) => Failure(e)
      case Success(s) => Step(s, rows[|rows| - 1])
  }

  // ---------------------------------------------------------------- meaning of a journal

  datatype Window = Lifetime | On(day: int) | Except(day: int)
  {
    predicate Has(d: int) {
      match this
      case Lifetime => true
      case On(x) => d == x
      case Except(x) => d != x
    }
  }

  /** Ids reserved, and ids settled, somewhere in the journal. */
  function Reserved(rows: seq<Row>): set<string> {
    if rows == [] then {}
    else
      var row := rows[|rows| - 1];
      Reserved(rows[..|rows| - 1]) + (if row.reserved then {row.id} else {})
  }

  function Settled(rows: seq<Row>): set<string> {
    if rows == [] then {}
    else
      var row := rows[|rows| - 1];
      Settled(rows[..|rows| - 1]) + (if row.reserved then {} else {row.id})
  }

  /** The reservation row of an id. */
  function Booked(rows: seq<Row>, id: string): Row
    requires id in Reserved(rows)
  {
    var last := rows[|rows| - 1];
    if last.reserved && last.id == id then last else Booked(rows[..|rows| - 1], id)
  }

  /** The amount a row adds to, or takes out of, the outstanding tokens. */
  function Amount(before: seq<Row>, row: Row): int {
    if row.reserved then row.delta
    else if row.id in Reserved(before) then Booked(before, row.id).delta
    else 0
  }

  /** Counters of exactly the rows whose day the window has, summed in unbounded integers. */
  function Tally(rows: seq<Row>, w: Window): Totals {
    if rows == [] then Blank(|rows|)
    else
      var before, row := rows[..|rows| - 1], rows[|rows| - 1];
      var t := Tally(before, w);
      if w.Has(row.day) then Charge(t, row, Amount(before, row)) else t
  }

  /** A row that may follow a legal journal: a fresh reservation, or the one
    * settlement of an outstanding reservation; and the lifetime charge fits. */
  predicate Extends(before: seq<Row>, row: Row) {
    && row.Decodable()
    && (if row.reserved then
          && Tally(before, Lifetime).calls.all < OPERATIONS_MAX
          && row.id !in Reserved(before)
          && row.delta >= 0 && !row.known && row.input == 0 && row.output == 0
        else
          && row.id in Reserved(before) && row.id !in Settled(before)
          && Booked(before, row.id).day == row.day
          && Booked(before, row.id).identity == row.identity
          && row.delta == (if row.known then row.input + row.output - Booked(before, row.id).delta else 0))
    && Tally(before, Lifetime).tokens.charged + row.delta <= INT64_MAX
  }

  predicate Legal(rows: seq<Row>) {
    rows == [] || (Legal(rows[..|rows| - 1]) && Extends(rows[..|rows| - 1], rows[|rows| - 1]))
  }

  function MaxDay(rows: seq<Row>, start: int): int {
    if rows == [] then start
    else
      var m := MaxDay(rows[..|rows| - 1], start);
      if rows[|rows| - 1].day > m then rows[|rows| - 1].day else m
  }
}
