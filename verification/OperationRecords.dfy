/** Which journals are legal, told by the positions of their rows, and which requests are admitted,
  * told by the sums of the journal. */
module OperationRecords {
  import opened Statuses
  import opened Consumption
  import opened ConsumptionFacts
  import opened Operations
  import opened OperationRuns
  import Utf8

  // ---------------------------------------------------------------- legal journals by position

  ghost predicate ReservedAt(rows: seq<Row>, i: nat, id: string) {
    i < |rows| && rows[i].reserved && rows[i].id == id
  }

  ghost predicate SettledAt(rows: seq<Row>, i: nat, id: string) {
    i < |rows| && !rows[i].reserved && rows[i].id == id
  }

  ghost predicate ReservedBefore(rows: seq<Row>, n: nat, id: string) {
    exists i {:trigger ReservedAt(rows, i, id)} :: 0 <= i < n && ReservedAt(rows, i, id)
  }

  ghost predicate SettledBefore(rows: seq<Row>, n: nat, id: string) {
    exists i {:trigger SettledAt(rows, i, id)} :: 0 <= i < n && SettledAt(rows, i, id)
  }

  /** The row settles that reservation: same identity and day, and its delta makes the charge what was
    * used, when that is known. */
  predicate Answers(settlement: Row, reservation: Row) {
    && settlement.identity == reservation.identity && settlement.day == reservation.day
    && (if settlement.known then reservation.delta + settlement.delta == settlement.input + settlement.output
        else settlement.delta == 0)
  }

  /** What the j-th row needs of those before it. */
  ghost predicate FitsAt(rows: seq<Row>, j: nat)
    requires j < |rows|
  {
    var row := rows[j];
    && row.Decodable()
    && (if row.reserved then
          && !ReservedBefore(rows, j, row.id) && Sum(Reservations, rows[..j], Lifetime) < OPERATIONS_MAX
          && row.delta >= 0 && !row.known && row.input == 0 && row.output == 0
        else
          && !SettledBefore(rows, j, row.id)
          && exists i {:trigger ReservedAt(rows, i, row.id)} ::
               0 <= i < j && ReservedAt(rows, i, row.id) && Answers(row, rows[i]))
    && Sum(Deltas, rows[..j + 1], Lifetime) <= INT64_MAX
  }

  ghost predicate Sound(rows: seq<Row>) {
    forall j {:trigger FitsAt(rows, j)} :: 0 <= j < |rows| ==> FitsAt(rows, j)
  }

  lemma {:induction false} ReservedByPosition(rows: seq<Row>, n: nat, id: string)
    requires n <= |rows|
    ensures id in Reserved(rows[..n]) <==> ReservedBefore(rows, n, id)
    ensures id in Settled(rows[..n]) <==> SettledBefore(rows, n, id)
  {
    if n > 0 {
      ReservedByPosition(rows, n - 1, id);
      assert rows[..n][..n - 1] == rows[..n - 1];
      if ReservedAt(rows, n - 1, id) || SettledAt(rows, n - 1, id) { }
    }
  }

  /** Where ids are reserved once, the row that is looked up is the one that reserves the id. */
  lemma {:induction false} BookedByPosition(rows: seq<Row>, n: nat, i: nat, id: string)
    requires i < n <= |rows| && ReservedAt(rows, i, id)
    requires forall k :: i < k < n ==> !ReservedAt(rows, k, id)
    ensures id in Reserved(rows[..n]) && Booked(rows[..n], id) == rows[i]
  {
    assert rows[..n][..n - 1] == rows[..n - 1];
    if i < n - 1 {
      BookedByPosition(rows, n - 1, i, id);
      assert !ReservedAt(rows, n - 1, id);
    }
  }

  lemma FitsLonger(rows: seq<Row>, j: nat, n: nat)
    requires j < n <= |rows|
    ensures FitsAt(rows, j) <==> FitsAt(rows[..n], j)
  {
    var before := rows[..n];
    assert before[..j] == rows[..j] && before[..j + 1] == rows[..j + 1];
    forall i, id | 0 <= i < j ensures ReservedAt(rows, i, id) <==> ReservedAt(before, i, id) { }
    forall i, id | 0 <= i < j ensures SettledAt(rows, i, id) <==> SettledAt(before, i, id) { }
  }

  lemma ReservedOnce(rows: seq<Row>, i: nat, k: nat, id: string)
    requires Sound(rows) && i < k < |rows| && ReservedAt(rows, i, id)
    ensures !ReservedAt(rows, k, id)
  {
    assert FitsAt(rows, k);
  }

  /** The reservation a settlement looks up, by position. */
  lemma LookedUp(rows: seq<Row>, n: nat, row: Row)
    requires n < |rows| && Sound(rows[..n])
    ensures (row.id in Reserved(rows[..n]) && Answers(row, Booked(rows[..n], row.id)))
            <==> exists i {:trigger ReservedAt(rows, i, row.id)} ::
                   0 <= i < n && ReservedAt(rows, i, row.id) && Answers(row, rows[i])
  {
    ReservedByPosition(rows, n, row.id);
    if ReservedBefore(rows, n, row.id) {
      var i: nat :| i < n && ReservedAt(rows, i, row.id);
      assert ReservedAt(rows[..n], i, row.id);
      forall k | 0 <= k < n && k != i ensures !ReservedAt(rows, k, row.id) {
        if ReservedAt(rows, k, row.id) {
          assert ReservedAt(rows[..n], k, row.id);
          if k < i { ReservedOnce(rows[..n], k, i, row.id); } else { ReservedOnce(rows[..n], i, k, row.id); }
        }
      }
      BookedByPosition(rows, n, i, row.id);
    }
  }

  lemma LastFits(rows: seq<Row>, n: nat)
    requires |rows| == n + 1 && Sound(rows[..n])
    ensures Extends(rows[..n], rows[n]) <==> FitsAt(rows, n)
  {
    var before, row := rows[..n], rows[n];
    ReservedByPosition(rows, n, row.id);
    LookedUp(rows, n, row);
    TallyIsSums(before, Lifetime);
    SumNext(Deltas, before, row, Lifetime);
    assert rows[..n + 1] == before + [row];
  }

  /** The journals that replay accepts are exactly those in which every row fits those before it. */
  lemma {:induction false} LegalIffSound(rows: seq<Row>)
    ensures Legal(rows) <==> Sound(rows)
  {
    if rows != [] {
      var n := |rows| - 1;
      LegalIffSound(rows[..n]);
      forall j | 0 <= j < n ensures FitsAt(rows, j) <==> FitsAt(rows[..n], j) { FitsLonger(rows, j, n); }
      if Sound(rows[..n]) { LastFits(rows, n); }
      if Sound(rows) {
        forall j | 0 <= j < n ensures FitsAt(rows[..n], j) { assert FitsAt(rows, j); }
      }
      if Legal(rows) {
        forall j | 0 <= j < |rows| ensures FitsAt(rows, j) { if j < n { assert FitsAt(rows[..n], j); } }
      }
    }
  }

  // ---------------------------------------------------------------- live operations by sums

  /** Outside recovery every live counter of every run holds the sum over the journal that its name says,
    * of all rows and of the rows of the day. */
  lemma ReachableCounts(events: seq<Event>, dailyTokens: int, start: int, s: System)
    requires s == Run(events, dailyTokens, start) && -MAX_DAY <= start <= MAX_DAY && !s.engine.recoveryRequired
    ensures Sums(s.engine.usage.lifetime, s.engine.journal, Lifetime)
    ensures Sums(s.engine.usage.today, s.engine.journal, On(s.engine.usage.utcDay))
  {
    Invariant(events, dailyTokens, start, s);
    TallyIsSums(s.engine.journal, Lifetime);
    TallyIsSums(s.engine.journal, On(s.engine.usage.utcDay));
  }

  predicate IsText(text: Text, max: nat) { 1 <= |text| <= max && Utf8.Valid(text) }

  /** Names that are valid text of bounded length, an id that may be absent, and no negative reservation. */
  predicate IsRequest(q: Request, reserve: int) {
    && IsText(q.model, 128) && IsText(q.kind, 32) && (q.id.Some? ==> IsText(q.id.value, 128)) && reserve >= 0
  }

  /** The journal has room for a row, the day's budget for the reservation, and 64 bits for the charge. */
  ghost predicate Room(rows: seq<Row>, dailyTokens: int, day: int, reserve: int) {
    && Sum(Reservations, rows, Lifetime) < 131072
    && (dailyTokens > 0 ==> Sum(Deltas, rows, On(day)) + reserve <= dailyTokens)
    && Sum(Deltas, rows, Lifetime) + reserve <= 0x7FFF_FFFF_FFFF_FFFF
  }

  function Reported(append: Append): Status {
    match append
    case Stored => OK
    case Lost(e) => e
    case Unacknowledged(e) => e
  }

  /** What a request is answered, in this order of tests. */
  ghost function Answer(s: State, q: Request, reserve: int, day: int, append: Append): Status {
    if !IsRequest(q, reserve) then INVALID
    else if s.recoveryRequired then IO
    else if !Room(s.journal, s.dailyTokens, day, reserve) then LIMIT
    else Reported(append)
  }

  lemma AdmittedFrom(now: State, id: string, identity: Identity, reserve: int, append: Append)
    requires Legal(now.journal) && UsageInv(now) && !now.recoveryRequired && id != "" && id !in Reserved(now.journal)
    requires 0 <= reserve <= INT64_MAX && append.WellFormed()
    ensures var row := ReserveRow(Op(id, identity, now.usage.utcDay, reserve));
            (if HasRoom(now, reserve) then Recorded(now, row, reserve, append).1 else LIMIT)
            == (if Room(now.journal, now.dailyTokens, now.usage.utcDay, reserve) then Reported(append) else LIMIT)
  {
    var rows, day := now.journal, now.usage.utcDay;
    TallyIsSums(rows, Lifetime);
    TallyIsSums(rows, On(day));
    if HasRoom(now, reserve) {
      AppendIsLegal(rows, ReserveRow(Op(id, identity, day, reserve)), day);
    }
  }

  /** In every reachable state a request is answered by what it says, by the sums of the journal and by
    * what became of the append; and what is admitted reserves just what was asked, on the current day. */
  lemma AdmittedIff(events: seq<Event>, dailyTokens: int, start: int, s: System, ev: Event)
    requires s == Run(events, dailyTokens, start) && -MAX_DAY <= start <= MAX_DAY && ev.Reserve? && ev.Possible(s)
    ensures var (t, e) := Begun(s.engine, ev.id, ev.q, ev.reserve, ev.clock, ev.append);
            var day := if ev.clock > s.engine.usage.utcDay then ev.clock else s.engine.usage.utcDay;
            && e == Answer(s.engine, ev.q, ev.reserve, day, ev.append)
            && (e == OK ==>
                  && Grew(s.engine.journal, t.journal)
                  && var id := if ev.q.id.Some? then ev.q.id.value else [];
                     Reserves(t.journal[|s.engine.journal|],
                              Op(ev.id, Identity(ev.q.model, ev.q.kind, id), day, ev.reserve)))
  {
    Invariant(events, dailyTokens, start, s);
    if ValidRequest(ev.q, ev.reserve) && !s.engine.recoveryRequired {
      var now := s.engine.(usage := Rolled(s.engine.usage, ev.clock));
      RollKeepsUsage(s.engine, ev.clock);
      AdmittedFrom(now, ev.id, IdentityOf(ev.q), ev.reserve, ev.append);
    }
  }

  /** What is appended does not depend on what becomes of it. */
  lemma EndedByAppend(s: State, op: Op, input: int, output: int, known: bool, outcome: Status, clock: int,
                      append: Append)
    requires append.WellFormed()
    ensures var (t, e) := Ended(s, op, input, output, known, outcome, clock, append);
            && (if s.recoveryRequired then e == IO
                else e == if Ended(s, op, input, output, known, outcome, clock, Stored).1 == OK then Reported(append)
                          else LIMIT)
            && (t.recoveryRequired <==> e != OK)
            && (e == OK ==>
                  && Grew(s.journal, t.journal)
                  && Settles(t.journal[|s.journal|], op, input, output, known, outcome))
  {
  }

  /** A settlement is answered likewise. One that is stored follows the journal with the use and the outcome
    * that were reported; any other leaves the engine in need of recovery. */
  lemma SettledIff(events: seq<Event>, dailyTokens: int, start: int, s: System, ev: Event)
    requires s == Run(events, dailyTokens, start) && -MAX_DAY <= start <= MAX_DAY && ev.Settle? && ev.Possible(s)
    requires ev.id in s.active && ev.input >= 0 && ev.output >= 0
    ensures var op := s.active[ev.id];
            var (t, e) := Ended(s.engine, op, ev.input, ev.output, ev.known, ev.outcome, ev.clock, ev.append);
            var used := if ev.known then ev.input + ev.output - op.reserved else 0;
            && e == (if s.engine.recoveryRequired then IO
                     else if Sum(Deltas, s.engine.journal, Lifetime) + used > 0x7FFF_FFFF_FFFF_FFFF then LIMIT
                     else Reported(ev.append))
            && (t.recoveryRequired <==> e != OK)
            && (e == OK ==>
                  && Grew(s.engine.journal, t.journal)
                  && Settles(t.journal[|s.engine.journal|], op, ev.input, ev.output, ev.known, ev.outcome))
  {
    Invariant(events, dailyTokens, start, s);
    if !s.engine.recoveryRequired {
      TallyIsSums(s.engine.journal, Lifetime);
      var stored := Settle(ev.id, ev.input, ev.output, ev.known, ev.outcome, ev.clock, Stored);
      SettlementFailsOnlyOnOverflow(events, dailyTokens, start, s, stored);
    }
    EndedByAppend(s.engine, s.active[ev.id], ev.input, ev.output, ev.known, ev.outcome, ev.clock, ev.append);
  }
}
