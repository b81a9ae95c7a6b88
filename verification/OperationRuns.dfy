/** Every interleaving of reservations, settlements, clock movements, failed appends and restarts. */
module OperationRuns {
  import opened Statuses
  import opened Consumption
  import opened ConsumptionFacts
  import opened Operations

  datatype System = System(engine: State, active: map<string, Op>, issued: set<string>)

  datatype Event =
    | Reserve(id: string, q: Request, reserve: int, clock: int, append: Append)
    | Settle(id: string, input: int, output: int, known: bool, outcome: Status, clock: int, append: Append)
    | Read(clock: int)
    | Reopen(clock: int)
  {
    /** C integer widths, clocks in range, fresh ids, and failing appends that report an error. */
    predicate Possible(s: System) {
      && -MAX_DAY <= clock <= MAX_DAY
      && match this
         case Reserve(id, _, reserve, _, append) =>
           id != "" && id !in s.issued && reserve <= INT64_MAX && append.WellFormed()
         case Settle(_, input, output, _, _, _, append) =>
           input <= INT_MAX && output <= INT_MAX && append.WellFormed()
         case _ => true
    }
  }

  function Next(s: System, ev: Event): System {
    match ev
    case Reserve(id, q, reserve, clock, append) =>
      var (engine, e) := Begun(s.engine, id, q, reserve, clock, append);
      System(engine,
             if e == OK then s.active[id := Op(id, IdentityOf(q), engine.usage.utcDay, reserve)] else s.active,
             s.issued + {id})
    case Settle(id, input, output, known, outcome, clock, append) =>
      if id !in s.active || input < 0 || output < 0 then s
      else
        var (engine, e) := Ended(s.engine, s.active[id], input, output, known, outcome, clock, append);
        s.(engine := engine, active := s.active - {id})
    case Read(clock) =>
      if s.engine.recoveryRequired then s
      else s.(engine := s.engine.(usage := Rolled(s.engine.usage, clock)))
    case Reopen(clock) => s.(engine := Restarted(s.engine, clock), active := map[])
  }

  function Start(dailyTokens: int, clock: int): System {
    System(State(Fresh(clock).usage, false, [], dailyTokens), map[], {})
  }

  /** The state after the events, oldest first; what cannot happen changes nothing. */
  function Run(events: seq<Event>, dailyTokens: int, clock: int): System {
    if events == [] then Start(dailyTokens, clock)
    else
      var before, last := Run(events[..|events| - 1], dailyTokens, clock), events[|events| - 1];
      if last.Possible(before) then Next(before, last) else before
  }

  // ---------------------------------------------------------------- the invariant

  ghost predicate Outstanding(rows: seq<Row>, op: Op) {
    && op.id in Reserved(rows) && op.id !in Settled(rows)
    && Booked(rows, op.id).day == op.day
    && Booked(rows, op.id).identity == op.identity
    && Booked(rows, op.id).delta == op.reserved
  }

  ghost predicate Bounded(rows: seq<Row>, day: int) {
    forall r :: r in rows ==> r.day <= day
  }

  /** By how much known settlements of the day exceeded what they had reserved. */
  ghost function Overshoot(rows: seq<Row>, day: int): int {
    if rows == [] then 0
    else
      var r := rows[|rows| - 1];
      Overshoot(rows[..|rows| - 1], day) + (if !r.reserved && r.day == day && r.delta > 0 then r.delta else 0)
  }

  ghost predicate WithinDaily(rows: seq<Row>, dailyTokens: int) {
    dailyTokens > 0 ==>
      forall day :: Tally(rows, On(day)).tokens.charged <= dailyTokens + Overshoot(rows, day)
  }

  ghost predicate JournalInv(s: System) {
    && Legal(s.engine.journal)
    && Reserved(s.engine.journal) <= s.issued
    && WithinDaily(s.engine.journal, s.engine.dailyTokens)
  }

  /** Counters always conserve; outside recovery the live projection means the journal. */
  ghost predicate UsageInv(s: State) {
    && -MAX_DAY <= s.usage.utcDay <= MAX_DAY
    && s.usage.lifetime.Balanced() && s.usage.today.Balanced()
    && (!s.recoveryRequired ==> s.usage == UsageOf(s.journal, s.usage.utcDay) && Bounded(s.journal, s.usage.utcDay))
  }

  ghost predicate ActiveInv(rows: seq<Row>, active: map<string, Op>) {
    forall id :: id in active ==> active[id].id == id && Outstanding(rows, active[id])
  }

  ghost predicate Inv(s: System) {
    && JournalInv(s)
    && UsageInv(s.engine)
    && (!s.engine.recoveryRequired ==> ActiveInv(s.engine.journal, s.active))
  }

  // ---------------------------------------------------------------- one append

  lemma RollKeepsMeaning(rows: seq<Row>, day: int, clock: int)
    requires Bounded(rows, day)
    ensures Rolled(UsageOf(rows, day), clock) == UsageOf(rows, if clock > day then clock else day)
  {
    if clock > day {
      LaterDayIsEmpty(rows, clock);
    }
  }

  /** Appending a well-formed row fails exactly on 64-bit overflow of the lifetime charge,
    * and otherwise leaves a legal journal whose meaning is the new projection. */
  lemma AppendIsLegal(rows: seq<Row>, row: Row, day: int)
    requires Legal(rows) && Bounded(rows, day) && row.day <= day
    requires Shaped(rows, row)
    ensures var o := Observed(UsageOf(rows, day), row, Amount(rows, row));
            && (o.Some? <==> Tally(rows, Lifetime).tokens.charged + row.delta <= INT64_MAX)
            && (o.Some? ==>
                  && Legal(rows + [row]) && Bounded(rows + [row], day)
                  && o.value == UsageOf(rows + [row], day))
  {
    ObservedIsFilter(rows, row, day);
    assert (rows + [row])[..|rows|] == rows;
  }

  /** A row that a day's budget has room for, or that does not grow the day's charge
    * beyond what it overshoots, keeps every day within its budget. */
  lemma AppendKeepsDaily(rows: seq<Row>, row: Row, dailyTokens: int)
    requires WithinDaily(rows, dailyTokens)
    requires row.reserved && dailyTokens > 0 ==> Tally(rows, On(row.day)).tokens.charged + row.delta <= dailyTokens
    ensures WithinDaily(rows + [row], dailyTokens)
  {
    assert (rows + [row])[..|rows|] == rows;
    forall day | dailyTokens > 0
      ensures Tally(rows + [row], On(day)).tokens.charged <= dailyTokens + Overshoot(rows + [row], day)
    {
      OvershootNonNegative(rows, day);
      assert Tally(rows, On(day)).tokens.charged <= dailyTokens + Overshoot(rows, day);
    }
  }

  lemma {:induction false} OvershootNonNegative(rows: seq<Row>, day: int)
    ensures Overshoot(rows, day) >= 0
  {
    if rows != [] {
      OvershootNonNegative(rows[..|rows| - 1], day);
    }
  }

  // ---------------------------------------------------------------- preservation

  lemma InvStart(dailyTokens: int, clock: int)
    requires -MAX_DAY <= clock <= MAX_DAY
    ensures Inv(Start(dailyTokens, clock))
  {
  }

  lemma BalancedUsage(rows: seq<Row>, day: int)
    requires Legal(rows)
    ensures UsageOf(rows, day).lifetime.Balanced() && UsageOf(rows, day).today.Balanced()
  {
    TallyBalanced(rows, Lifetime);
    TallyBalanced(rows, On(day));
  }

  /** A row the engine appends: well formed, within 64 bits, and within the day's budget. */
  ghost predicate Admitted(rows: seq<Row>, row: Row, dailyTokens: int) {
    && Shaped(rows, row)
    && Tally(rows, Lifetime).tokens.charged + row.delta <= INT64_MAX
    && (row.reserved && dailyTokens > 0 ==> Tally(rows, On(row.day)).tokens.charged + row.delta <= dailyTokens)
  }

  lemma AdmittedKeepsJournal(s: System, row: Row, t: System)
    requires JournalInv(s) && Admitted(s.engine.journal, row, s.engine.dailyTokens)
    requires t.engine.journal == s.engine.journal + [row] && t.engine.dailyTokens == s.engine.dailyTokens
    requires row.reserved ==> s.issued + {row.id} <= t.issued
    requires s.issued <= t.issued
    ensures JournalInv(t)
  {
    var rows := s.engine.journal;
    assert (rows + [row])[..|rows|] == rows;
    AppendKeepsDaily(rows, row, s.engine.dailyTokens);
  }

  /** Appending a row keeps every other active operation outstanding. */
  lemma AppendKeepsActive(rows: seq<Row>, row: Row, active: map<string, Op>)
    requires ActiveInv(rows, active) && row.id !in active
    ensures ActiveInv(rows + [row], active)
  {
    assert (rows + [row])[..|rows|] == rows;
  }

  lemma NewReservationIsOutstanding(rows: seq<Row>, op: Op)
    requires Legal(rows) && op.id !in Reserved(rows)
    ensures Outstanding(rows + [ReserveRow(op)], op)
  {
    SettledWereReserved(rows);
    assert (rows + [ReserveRow(op)])[..|rows|] == rows;
  }

  /** One recorded row from a state whose usage means its journal. */
  lemma RecordEffect(s: State, row: Row, reserved: int, append: Append, t: State, e: Status)
    requires Legal(s.journal) && UsageInv(s) && !s.recoveryRequired && append.WellFormed()
    requires Shaped(s.journal, row) && row.day <= s.usage.utcDay && reserved == Amount(s.journal, row)
    requires (t, e) == Recorded(s, row, reserved, append)
    ensures UsageInv(t) && t.dailyTokens == s.dailyTokens
    ensures t.journal == s.journal
            || (t.journal == s.journal + [row] && Tally(s.journal, Lifetime).tokens.charged + row.delta <= INT64_MAX)
    ensures e == OK ==> t.journal == s.journal + [row]
    ensures !t.recoveryRequired && t.journal != s.journal ==> e == OK
  {
    AppendIsLegal(s.journal, row, s.usage.utcDay);
    if e == OK {
      BalancedUsage(t.journal, t.usage.utcDay);
    }
  }

  lemma RollKeepsUsage(s: State, clock: int)
    requires Legal(s.journal) && UsageInv(s) && -MAX_DAY <= clock <= MAX_DAY
    ensures UsageInv(s.(usage := Rolled(s.usage, clock)))
  {
    if !s.recoveryRequired {
      RollKeepsMeaning(s.journal, s.usage.utcDay, clock);
    }
  }

  /** The day's budget and the journal have room for a reservation. */
  predicate HasRoom(now: State, reserve: int) {
    && now.usage.lifetime.calls.all < OPERATIONS_MAX
    && (now.dailyTokens > 0 ==> reserve <= now.dailyTokens - now.usage.today.tokens.charged)
  }

  lemma RecordKeepsDay(s: State, row: Row, reserved: int, append: Append)
    requires row.day == s.usage.utcDay
    ensures Recorded(s, row, reserved, append).0.usage.utcDay == s.usage.utcDay
  {
  }

  /** A reservation that gets as far as the journal. */
  lemma ReserveIs(s: System, ev: Event, t: System, now: State, op: Op, engine: State, e: Status)
    requires ev.Reserve? && ev.Possible(s) && t == Next(s, ev) && ValidRequest(ev.q, ev.reserve)
    requires now == s.engine.(usage := Rolled(s.engine.usage, ev.clock)) && !now.recoveryRequired
    requires op == Op(ev.id, IdentityOf(ev.q), now.usage.utcDay, ev.reserve)
    requires (engine, e) == Recorded(now, ReserveRow(op), ev.reserve, ev.append)
    ensures !HasRoom(now, ev.reserve) ==> t == System(now, s.active, s.issued + {ev.id})
    ensures HasRoom(now, ev.reserve) ==>
              t == System(engine, if e == OK then s.active[ev.id := op] else s.active, s.issued + {ev.id})
  {
    RecordKeepsDay(now, ReserveRow(op), ev.reserve, ev.append);
  }

  lemma ReserveKeepsInv(s: System, ev: Event, t: System)
    requires Inv(s) && ev.Reserve? && ev.Possible(s) && t == Next(s, ev)
    ensures Inv(t)
  {
    if ValidRequest(ev.q, ev.reserve) {
      var now := s.engine.(usage := Rolled(s.engine.usage, ev.clock));
      RollKeepsUsage(s.engine, ev.clock);
      if !s.engine.recoveryRequired {
        var op := Op(ev.id, IdentityOf(ev.q), now.usage.utcDay, ev.reserve);
        var (engine, e) := Recorded(now, ReserveRow(op), ev.reserve, ev.append);
        ReserveIs(s, ev, t, now, op, engine, e);
        if HasRoom(now, ev.reserve) {
          ReserveFromRolled(s, t, now, op, ev.append, engine, e);
        }
      }
    }
  }

  lemma ReserveFromRolled(s: System, t: System, now: State, op: Op, append: Append, engine: State, e: Status)
    requires JournalInv(s) && ActiveInv(s.engine.journal, s.active)
    requires op.id != "" && op.id !in s.issued && 0 <= op.reserved <= INT64_MAX && append.WellFormed()
    requires now.journal == s.engine.journal && now.dailyTokens == s.engine.dailyTokens && !now.recoveryRequired
    requires UsageInv(now) && op.day == now.usage.utcDay && HasRoom(now, op.reserved)
    requires (engine, e) == Recorded(now, ReserveRow(op), op.reserved, append)
    requires t == System(engine, if e == OK then s.active[op.id := op] else s.active, s.issued + {op.id})
    ensures Inv(t)
  {
    var rows, row := s.engine.journal, ReserveRow(op);
    assert Shaped(rows, row) && Amount(rows, row) == op.reserved;
    RecordEffect(now, row, op.reserved, append, engine, e);
    if engine.journal != rows {
      AdmittedKeepsJournal(s, row, t);
      ReservedIsActive(rows, s.active, s.issued, op);
    }
  }

  lemma ReservedIsActive(rows: seq<Row>, active: map<string, Op>, issued: set<string>, op: Op)
    requires Legal(rows) && ActiveInv(rows, active) && Reserved(rows) <= issued && op.id !in issued
    ensures ActiveInv(rows + [ReserveRow(op)], active) && ActiveInv(rows + [ReserveRow(op)], active[op.id := op])
  {
    assert op.id !in active;
    AppendKeepsActive(rows, ReserveRow(op), active);
    NewReservationIsOutstanding(rows, op);
  }

  lemma SettleKeepsInv(s: System, ev: Event, t: System)
    requires Inv(s) && ev.Settle? && ev.Possible(s) && t == Next(s, ev)
    ensures Inv(t)
  {
    if ev.id in s.active && ev.input >= 0 && ev.output >= 0 && !s.engine.recoveryRequired {
      var now := s.engine.(usage := Rolled(s.engine.usage, ev.clock));
      RollKeepsUsage(s.engine, ev.clock);
      SettleFromRolled(s, ev, s.active[ev.id], now, t);
    }
  }

  lemma SettleFromRolled(s: System, ev: Event, op: Op, now: State, t: System)
    requires JournalInv(s) && ActiveInv(s.engine.journal, s.active) && !s.engine.recoveryRequired
    requires ev.Settle? && ev.Possible(s) && t == Next(s, ev) && ev.input >= 0 && ev.output >= 0
    requires ev.id in s.active && op == s.active[ev.id]
    requires now == s.engine.(usage := Rolled(s.engine.usage, ev.clock)) && UsageInv(now)
    ensures Inv(t)
  {
    var rows, row := s.engine.journal, SettleRow(op, ev.input, ev.output, ev.known, ev.outcome);
    SettlementIsShaped(rows, op, ev.input, ev.output, ev.known, ev.outcome);
    var (engine, e) := Recorded(now, row, op.reserved, ev.append);
    RecordEffect(now, row, op.reserved, ev.append, engine, e);
    if engine.journal != rows {
      AdmittedKeepsJournal(s, row, t);
      AppendKeepsActive(rows, row, s.active - {ev.id});
    }
  }

  lemma {:induction false} BookedInJournal(rows: seq<Row>, id: string)
    requires id in Reserved(rows)
    ensures Booked(rows, id) in rows && Booked(rows, id).reserved && Booked(rows, id).id == id
  {
    var last := rows[|rows| - 1];
    if !(last.reserved && last.id == id) {
      BookedInJournal(rows[..|rows| - 1], id);
    }
  }

  lemma {:induction false} LegalRowsDecode(rows: seq<Row>)
    requires Legal(rows)
    ensures forall r :: r in rows ==> r.Decodable()
  {
    if rows != [] {
      LegalRowsDecode(rows[..|rows| - 1]);
      assert rows == rows[..|rows| - 1] + [rows[|rows| - 1]];
    }
  }

  lemma SettlementIsShaped(rows: seq<Row>, op: Op, input: int, output: int, known: bool, outcome: Status)
    requires Legal(rows) && Outstanding(rows, op)
    requires 0 <= input <= INT_MAX && 0 <= output <= INT_MAX
    ensures Shaped(rows, SettleRow(op, input, output, known, outcome))
    ensures SettleRow(op, input, output, known, outcome).day == Booked(rows, op.id).day
    ensures Booked(rows, op.id) in rows
    ensures Amount(rows, SettleRow(op, input, output, known, outcome)) == op.reserved
  {
    BookedInJournal(rows, op.id);
    BookedNonNegative(rows, op.id);
    LegalRowsDecode(rows);
  }

  lemma ReopenKeepsInv(s: System, ev: Event, t: System)
    requires Inv(s) && ev.Reopen? && ev.Possible(s) && t == Next(s, ev)
    ensures Inv(t) && !t.engine.recoveryRequired
  {
    var rows := s.engine.journal;
    ReplayMeaning(rows, ev.clock);
    MaxDayBounds(rows, ev.clock);
    BalancedUsage(rows, MaxDay(rows, ev.clock));
    LegalRowsDecode(rows);
  }

  lemma InvNext(s: System, ev: Event, t: System)
    requires Inv(s) && ev.Possible(s) && t == Next(s, ev)
    ensures Inv(t)
  {
    match ev
    case Reserve(_, _, _, _, _) => ReserveKeepsInv(s, ev, t);
    case Settle(_, _, _, _, _, _, _) => SettleKeepsInv(s, ev, t);
    case Read(clock) => RollKeepsUsage(s.engine, clock);
    case Reopen(_) => ReopenKeepsInv(s, ev, t);
  }

  /** Over every run. */
  lemma {:induction false} Invariant(events: seq<Event>, dailyTokens: int, clock: int, s: System)
    requires s == Run(events, dailyTokens, clock) && -MAX_DAY <= clock <= MAX_DAY
    ensures Inv(s) && s.engine.dailyTokens == dailyTokens
  {
    if events == [] {
      InvStart(dailyTokens, clock);
    } else {
      var before, last := Run(events[..|events| - 1], dailyTokens, clock), events[|events| - 1];
      Invariant(events[..|events| - 1], dailyTokens, clock, before);
      if last.Possible(before) {
        InvNext(before, last, s);
        NextKeepsBudget(before, last);
      }
    }
  }

  lemma NextKeepsBudget(s: System, ev: Event)
    ensures Next(s, ev).engine.dailyTokens == s.engine.dailyTokens
  {
  }

  // ---------------------------------------------------------------- what a reader may rely on

  /** In every reachable state both projections conserve charge, recovering or not. */
  lemma ReachableConserves(events: seq<Event>, dailyTokens: int, clock: int, s: System)
    requires s == Run(events, dailyTokens, clock) && -MAX_DAY <= clock <= MAX_DAY
    ensures s.engine.usage.lifetime.Balanced() && s.engine.usage.today.Balanced()
  {
    Invariant(events, dailyTokens, clock, s);
  }

  lemma RebuildsExactly(rows: seq<Row>, live: Usage, clock: int)
    requires Legal(rows) && Bounded(rows, live.utcDay)
    requires live == UsageOf(rows, live.utcDay)
    ensures Replay(rows, clock).Success?
    ensures Replay(rows, clock).value.usage.lifetime == live.lifetime
    ensures Replay(rows, clock).value.usage == Rolled(live, clock)
            <==> clock >= live.utcDay || exists r :: r in rows && r.day == live.utcDay
  {
    ReplayMeaning(rows, clock);
    MaxDayBounds(rows, clock);
    RollKeepsMeaning(rows, live.utcDay, clock);
  }

  /** Replay accepts the journal of every reachable state, even one left by a failed append.
    * Outside recovery it rebuilds the lifetime totals; and it rebuilds the whole projection
    * exactly when the reload clock is not behind the live day, or some row is of the live day. */
  lemma ReplayRebuilds(events: seq<Event>, dailyTokens: int, start: int, s: System, clock: int)
    requires s == Run(events, dailyTokens, start) && -MAX_DAY <= start <= MAX_DAY
    ensures Replay(s.engine.journal, clock).Success?
    ensures !s.engine.recoveryRequired ==>
              var rows, live := s.engine.journal, s.engine.usage;
              && Replay(rows, clock).value.usage.lifetime == live.lifetime
              && (Replay(rows, clock).value.usage == Rolled(live, clock)
                  <==> clock >= live.utcDay || exists r :: r in rows && r.day == live.utcDay)
  {
    Invariant(events, dailyTokens, start, s);
    ReplayMeaning(s.engine.journal, clock);
    if !s.engine.recoveryRequired {
      RebuildsExactly(s.engine.journal, s.engine.usage, clock);
    }
  }

  /** One such state, after a reservation on one day and a look at the totals on the next: live, the
    * new day is blank; replayed with a clock of the day before, that day's charge is back. */
  lemma ReplayMayDiffer(id: string, q: Request, reserve: int, dailyTokens: int, day: int)
    requires id != "" && ValidRequest(q, reserve) && 0 < reserve <= INT64_MAX
    requires dailyTokens > 0 ==> reserve <= dailyTokens
    requires -MAX_DAY <= day < MAX_DAY
    ensures var s := Run([Reserve(id, q, reserve, day, Stored), Read(day + 1)], dailyTokens, day);
            && !s.engine.recoveryRequired && s.engine.usage.today.tokens.charged == 0
            && Replay(s.engine.journal, day).Success?
            && Replay(s.engine.journal, day).value.usage.today.tokens.charged == reserve
            && Replay(s.engine.journal, day).value.usage != Rolled(s.engine.usage, day)
  {
    var first, second := Reserve(id, q, reserve, day, Stored), Read(day + 1);
    var row := ReserveRow(Op(id, IdentityOf(q), day, reserve));
    RunTwo(first, second, dailyTokens, day);
    FirstRowFits(row, day);
    FirstReservation(dailyTokens, day, id, q, reserve, row);
    ReplayOne(row, day);
  }

  lemma RunTwo(first: Event, second: Event, dailyTokens: int, clock: int)
    requires first.Possible(Start(dailyTokens, clock)) && second.Possible(Next(Start(dailyTokens, clock), first))
    ensures Run([first, second], dailyTokens, clock) == Next(Next(Start(dailyTokens, clock), first), second)
  {
    assert [first, second][..1] == [first] && [first][..0] == [];
    assert Run([first], dailyTokens, clock) == Next(Start(dailyTokens, clock), first);
  }

  /** Only reserved and charged tokens and the count of calls move. */
  lemma FirstRowFits(row: Row, day: int)
    requires row.reserved && row.day == day && 0 <= row.delta <= INT64_MAX
    ensures var t := Charge(Blank(day), row, row.delta);
            t.InRange() && t.tokens.charged == row.delta
            && Observed(Fresh(day).usage, row, row.delta) == Some(Usage(t, t, day))
  {
  }

  lemma FirstReservation(dailyTokens: int, day: int, id: string, q: Request, reserve: int, row: Row)
    requires ValidRequest(q, reserve) && 0 <= reserve <= INT64_MAX && (dailyTokens > 0 ==> reserve <= dailyTokens)
    requires row == ReserveRow(Op(id, IdentityOf(q), day, reserve))
    requires Observed(Fresh(day).usage, row, reserve).Some?
    ensures var (s, e) := Begun(Start(dailyTokens, day).engine, id, q, reserve, day, Stored);
            e == OK && s.journal == [row] && s.usage.utcDay == day && !s.recoveryRequired
  {
  }

  lemma ReplayOne(row: Row, day: int)
    requires row.Decodable() && row.reserved && row.day == day && row.delta >= 0
    requires !row.known && row.input == 0 && row.output == 0
    requires Observed(Fresh(day).usage, row, row.delta).Some?
    ensures Replay([row], day).Success?
    ensures Replay([row], day).value.usage == Observed(Fresh(day).usage, row, row.delta).value
  {
    assert [row][..0] == [];
    assert Replay([], day) == Success(Fresh(day));
  }

  /** Settling an active operation never underflows a counter, whatever days have passed:
    * it is refused only when the lifetime charge would leave 64 bits, and a stored
    * settlement always succeeds otherwise. */
  lemma SettlementFailsOnlyOnOverflow(events: seq<Event>, dailyTokens: int, start: int, s: System, ev: Event)
    requires s == Run(events, dailyTokens, start) && -MAX_DAY <= start <= MAX_DAY
    requires !s.engine.recoveryRequired && ev.Settle? && ev.Possible(s)
    requires ev.id in s.active && ev.input >= 0 && ev.output >= 0 && ev.append == Stored
    ensures var op := s.active[ev.id];
            var delta := if ev.known then ev.input + ev.output - op.reserved else 0;
            var (_, e) := Ended(s.engine, op, ev.input, ev.output, ev.known, ev.outcome, ev.clock, ev.append);
            e == (if s.engine.usage.lifetime.tokens.charged + delta <= INT64_MAX then OK else LIMIT)
  {
    Invariant(events, dailyTokens, start, s);
    var rows, day, op := s.engine.journal, s.engine.usage.utcDay, s.active[ev.id];
    var now := if ev.clock > day then ev.clock else day;
    RollKeepsMeaning(rows, day, ev.clock);
    SettlementIsShaped(rows, op, ev.input, ev.output, ev.known, ev.outcome);
    AppendIsLegal(rows, SettleRow(op, ev.input, ev.output, ev.known, ev.outcome), now);
  }

  /** Today's charge exceeds a positive daily budget by no more than what known
    * settlements of the day used beyond their reservations. */
  lemma DailyBudgetHolds(events: seq<Event>, dailyTokens: int, start: int, s: System)
    requires s == Run(events, dailyTokens, start) && -MAX_DAY <= start <= MAX_DAY
    requires dailyTokens > 0 && !s.engine.recoveryRequired
    ensures s.engine.usage.today.tokens.charged
            <= dailyTokens + Overshoot(s.engine.journal, s.engine.usage.utcDay)
  {
    Invariant(events, dailyTokens, start, s);
  }

  /** In this run every settlement stays within what its operation had reserved. */
  ghost predicate Modest(events: seq<Event>, dailyTokens: int, clock: int) {
    events == []
    || (Modest(events[..|events| - 1], dailyTokens, clock)
        && StaysWithin(Run(events[..|events| - 1], dailyTokens, clock), events[|events| - 1]))
  }

  predicate StaysWithin(s: System, ev: Event) {
    ev.Settle? && ev.known && ev.id in s.active ==> ev.input + ev.output <= s.active[ev.id].reserved
  }

  predicate NoExcess(rows: seq<Row>) {
    forall r :: r in rows && !r.reserved ==> r.delta <= 0
  }

  lemma RecordExcess(s: State, row: Row, reserved: int, append: Append)
    requires NoExcess(s.journal) && (!row.reserved ==> row.delta <= 0)
    ensures NoExcess(Recorded(s, row, reserved, append).0.journal)
  {
  }

  lemma NextIsModest(s: System, ev: Event)
    requires NoExcess(s.engine.journal) && StaysWithin(s, ev)
    ensures NoExcess(Next(s, ev).engine.journal)
  {
    match ev
    case Reserve(id, q, reserve, clock, append) =>
      var now := s.engine.(usage := Rolled(s.engine.usage, clock));
      RecordExcess(now, ReserveRow(Op(id, IdentityOf(q), now.usage.utcDay, reserve)), reserve, append);
    case Settle(id, input, output, known, outcome, clock, append) =>
      if id in s.active && input >= 0 && output >= 0 {
        var now, op := s.engine.(usage := Rolled(s.engine.usage, clock)), s.active[id];
        RecordExcess(now, SettleRow(op, input, output, known, outcome), op.reserved, append);
      }
    case _ =>
  }

  lemma {:induction false} ModestRuns(events: seq<Event>, dailyTokens: int, clock: int, s: System)
    requires Modest(events, dailyTokens, clock) && s == Run(events, dailyTokens, clock)
    ensures NoExcess(s.engine.journal)
  {
    if events != [] {
      var before, last := Run(events[..|events| - 1], dailyTokens, clock), events[|events| - 1];
      ModestRuns(events[..|events| - 1], dailyTokens, clock, before);
      if last.Possible(before) { NextIsModest(before, last); }
    }
  }

  /** A run whose settlements stay within their reservations never exceeds a positive daily budget. */
  lemma ModestRunsKeepBudget(events: seq<Event>, dailyTokens: int, start: int, s: System)
    requires s == Run(events, dailyTokens, start) && -MAX_DAY <= start <= MAX_DAY
    requires dailyTokens > 0 && !s.engine.recoveryRequired && Modest(events, dailyTokens, start)
    ensures s.engine.usage.today.tokens.charged <= dailyTokens
  {
    DailyBudgetHolds(events, dailyTokens, start, s);
    ModestRuns(events, dailyTokens, start, s);
    NoOvershoot(s.engine.journal, s.engine.usage.utcDay);
  }

  /** Otherwise it can: one operation that uses more than it reserved. */
  lemma BudgetIsExceeded(id: string, q: Request, reserve: int, used: int, dailyTokens: int, day: int)
    requires id != "" && ValidRequest(q, reserve) && -MAX_DAY <= day <= MAX_DAY
    requires reserve <= dailyTokens < used <= INT_MAX
    ensures var run := [Reserve(id, q, reserve, day, Stored), Settle(id, used, 0, true, OK, day, Stored)];
            var s := Run(run, dailyTokens, day);
            !s.engine.recoveryRequired && s.engine.usage.today.tokens.charged == used > s.engine.dailyTokens
  {
    var first, second := Reserve(id, q, reserve, day, Stored), Settle(id, used, 0, true, OK, day, Stored);
    var op := Op(id, IdentityOf(q), day, reserve);
    FirstRowFits(ReserveRow(op), day);
    FirstReservation(dailyTokens, day, id, q, reserve, ReserveRow(op));
    RunTwo(first, second, dailyTokens, day);
    SecondRowFits(ReserveRow(op), SettleRow(op, used, 0, true, OK), day, reserve, used);
  }

  lemma SecondRowFits(first: Row, second: Row, day: int, reserve: int, used: int)
    requires first.reserved && first.day == second.day == day && first.delta == reserve
    requires 0 <= reserve <= INT64_MAX && 0 <= used <= INT_MAX
    requires !second.reserved && second.known && second.outcome == OK
    requires second.input == used && second.output == 0 && second.delta == used - reserve
    ensures var t := Charge(Blank(day), first, reserve);
            var v := Charge(t, second, reserve);
            && v.InRange() && v.tokens.charged == used
            && Observed(Usage(t, t, day), second, reserve) == Some(Usage(v, v, day))
  {
  }

  /** Usage within reservations is never over budget. */
  lemma {:induction false} NoOvershoot(rows: seq<Row>, day: int)
    requires forall r :: r in rows && !r.reserved ==> r.delta <= 0
    ensures Overshoot(rows, day) == 0
  {
    if rows != [] {
      NoOvershoot(rows[..|rows| - 1], day);
    }
  }
}
