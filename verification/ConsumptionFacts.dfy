/** Conservation, the day filter, and exact acceptance for the consumption journal. */
module ConsumptionFacts {
  import opened Statuses
  import opened Consumption

  // ---------------------------------------------------------------- outstanding reservations

  /** Tokens and calls reserved in the window by ids outside `closed`. */
  ghost function OpenTokens(rows: seq<Row>, closed: set<string>, w: Window): int {
    if rows == [] then 0
    else
      var r := rows[|rows| - 1];
      OpenTokens(rows[..|rows| - 1], closed, w)
      + (if r.reserved && w.Has(r.day) && r.id !in closed then r.delta else 0)
  }

  ghost function OpenCalls(rows: seq<Row>, closed: set<string>, w: Window): int {
    if rows == [] then 0
    else
      var r := rows[|rows| - 1];
      OpenCalls(rows[..|rows| - 1], closed, w) + (if r.reserved && w.Has(r.day) && r.id !in closed then 1 else 0)
  }

  lemma {:induction false} SettledWereReserved(rows: seq<Row>)
    requires Legal(rows)
    ensures Settled(rows) <= Reserved(rows)
  {
    if rows != [] {
      var before, row := rows[..|rows| - 1], rows[|rows| - 1];
      assert rows == before + [row];
      SettledWereReserved(before);
    }
  }

  lemma {:induction false} OpenIgnoresStrangers(rows: seq<Row>, closed: set<string>, id: string, w: Window)
    requires id !in Reserved(rows)
    ensures OpenTokens(rows, closed + {id}, w) == OpenTokens(rows, closed, w)
    ensures OpenCalls(rows, closed + {id}, w) == OpenCalls(rows, closed, w)
  {
    if rows != [] {
      var before, row := rows[..|rows| - 1], rows[|rows| - 1];
      assert rows == before + [row];
      OpenIgnoresStrangers(before, closed, id, w);
    }
  }

  /** Each id is reserved at most once, then settled at most once. */
  ghost predicate Paired(rows: seq<Row>) {
    rows != [] ==>
      var before, row := rows[..|rows| - 1], rows[|rows| - 1];
      && Paired(before)
      && (row.reserved ==> row.id !in Reserved(before) && row.id !in Settled(before))
      && (!row.reserved ==> row.id in Reserved(before) && row.id !in Settled(before)
                            && Booked(before, row.id).day == row.day)
  }

  lemma {:induction false} LegalIsPaired(rows: seq<Row>)
    requires Legal(rows)
    ensures Paired(rows)
  {
    if rows != [] {
      LegalIsPaired(rows[..|rows| - 1]);
      SettledWereReserved(rows[..|rows| - 1]);
    }
  }

  /** Closing an outstanding id takes out exactly its own reservation. */
  lemma {:induction false} CloseOne(rows: seq<Row>, closed: set<string>, id: string, w: Window)
    requires Paired(rows)
    requires id in Reserved(rows) && id !in closed
    ensures var b := Booked(rows, id);
            && OpenTokens(rows, closed + {id}, w) == OpenTokens(rows, closed, w) - (if w.Has(b.day) then b.delta else 0)
            && OpenCalls(rows, closed + {id}, w) == OpenCalls(rows, closed, w) - (if w.Has(b.day) then 1 else 0)
  {
    var before, row := rows[..|rows| - 1], rows[|rows| - 1];
    if row.reserved && row.id == id {
      OpenIgnoresStrangers(before, closed, id, w);
    } else {
      CloseOne(before, closed, id, w);
    }
  }

  lemma {:induction false} OpenNonNegative(rows: seq<Row>, closed: set<string>, w: Window)
    requires Legal(rows)
    ensures OpenTokens(rows, closed, w) >= 0 && OpenCalls(rows, closed, w) >= 0
  {
    if rows != [] {
      OpenNonNegative(rows[..|rows| - 1], closed, w);
    }
  }

  // ---------------------------------------------------------------- conservation

  /** The outstanding counters are exactly the reservations without a settlement. */
  lemma {:induction false} OpenIsUnsettled(rows: seq<Row>, w: Window)
    requires Paired(rows)
    ensures Tally(rows, w).tokens.unsettled == OpenTokens(rows, Settled(rows), w)
    ensures Tally(rows, w).calls.unsettled == OpenCalls(rows, Settled(rows), w)
  {
    if rows != [] {
      var before, row := rows[..|rows| - 1], rows[|rows| - 1];
      OpenIsUnsettled(before, w);
      if row.reserved {
        assert Settled(rows) == Settled(before);
      } else {
        assert Settled(rows) == Settled(before) + {row.id};
        CloseOne(before, Settled(before), row.id, w);
      }
    }
  }

  /** An outstanding reservation is covered by the outstanding counters of its window. */
  lemma OutstandingCovers(rows: seq<Row>, id: string, w: Window)
    requires Legal(rows) && id in Reserved(rows) && id !in Settled(rows)
    requires w.Has(Booked(rows, id).day)
    ensures 0 <= Booked(rows, id).delta <= Tally(rows, w).tokens.unsettled
    ensures 1 <= Tally(rows, w).calls.unsettled
  {
    LegalIsPaired(rows);
    OpenIsUnsettled(rows, w);
    CloseOne(rows, Settled(rows), id, w);
    OpenNonNegative(rows, Settled(rows) + {id}, w);
    BookedNonNegative(rows, id);
  }

  /** In every window of a legal journal the charge is conserved. */
  lemma {:induction false} TallyBalanced(rows: seq<Row>, w: Window)
    requires Legal(rows)
    ensures Tally(rows, w).Balanced()
  {
    if rows != [] {
      var before, row := rows[..|rows| - 1], rows[|rows| - 1];
      TallyBalanced(before, w);
      if w.Has(row.day) {
        if !row.reserved {
          OutstandingCovers(before, row.id, w);
        }
        ChargeBalances(Tally(before, w), row, Amount(before, row));
      }
    }
  }

  /** Charging a reservation, or a settlement of no more than is outstanding, conserves. */
  lemma ChargeBalances(t: Totals, row: Row, amount: int)
    requires t.Balanced() && row.Decodable() && amount >= 0
    requires row.reserved ==> row.delta == amount
    requires !row.reserved ==> row.delta == (if row.known then row.input + row.output - amount else 0)
    requires !row.reserved ==> amount <= t.tokens.unsettled && 1 <= t.calls.unsettled
    ensures Charge(t, row, amount).Balanced()
  {
  }

  lemma {:induction false} CallsFit(rows: seq<Row>)
    requires Legal(rows)
    ensures Tally(rows, Lifetime).calls.all <= OPERATIONS_MAX
  {
    if rows != [] {
      CallsFit(rows[..|rows| - 1]);
    }
  }

  lemma OneMore(ids: set<string>, id: string)
    requires id !in ids
    ensures |ids + {id}| == |ids| + 1
  {
  }

  lemma {:induction false} CallsAreReservations(rows: seq<Row>, calls: int)
    requires Paired(rows)
    requires calls == Tally(rows, Lifetime).calls.all
    ensures calls == |Reserved(rows)|
  {
    if rows != [] {
      var before, row := rows[..|rows| - 1], rows[|rows| - 1];
      CallsAreReservations(before, Tally(before, Lifetime).calls.all);
      if row.reserved {
        OneMore(Reserved(before), row.id);
      } else {
        assert Reserved(rows) == Reserved(before);
      }
    }
  }

  ghost function PlusCalls(a: Calls, b: Calls): Calls {
    Calls(a.all + b.all, a.unsettled + b.unsettled, a.unknown + b.unknown,
          a.failed + b.failed, a.cancelled + b.cancelled)
  }

  ghost function PlusTokens(a: Tokens, b: Tokens): Tokens {
    Tokens(a.knownInput + b.knownInput, a.knownOutput + b.knownOutput, a.unsettled + b.unsettled, a.unknown + b.unknown,
           a.charged + b.charged)
  }

  ghost function Plus(a: Totals, b: Totals): Totals {
    Totals(PlusCalls(a.calls, b.calls), PlusTokens(a.tokens, b.tokens))
  }

  lemma ChargeIsAdditive(a: Totals, b: Totals, row: Row, amount: int)
    ensures Plus(Charge(a, row, amount), b) == Charge(Plus(a, b), row, amount)
    ensures Plus(a, Charge(b, row, amount)) == Charge(Plus(a, b), row, amount)
  {
  }

  lemma TallyNext(before: seq<Row>, row: Row, w: Window)
    ensures Tally(before + [row], w)
            == if w.Has(row.day) then Charge(Tally(before, w), row, Amount(before, row)) else Tally(before, w)
  {
    assert (before + [row])[..|before|] == before;
  }

  lemma NoCalls(whole: Calls, part: Calls, rest: Calls)
    requires forall c :: c in {whole, part, rest} ==>
               c.all == 0 && c.unsettled == 0 && c.unknown == 0 && c.failed == 0 && c.cancelled == 0
    ensures whole == PlusCalls(part, rest)
  {
  }

  lemma NoTokens(whole: Tokens, part: Tokens, rest: Tokens)
    requires forall t :: t in {whole, part, rest} ==>
               t.knownInput == 0 && t.knownOutput == 0 && t.unsettled == 0 && t.unknown == 0 && t.charged == 0
    ensures whole == PlusTokens(part, rest)
  {
  }

  lemma NothingSplits(whole: Totals, part: Totals, rest: Totals)
    requires whole.IsZero() && part.IsZero() && rest.IsZero()
    ensures whole == Plus(part, rest)
  {
    NoCalls(whole.calls, part.calls, rest.calls);
    NoTokens(whole.tokens, part.tokens, rest.tokens);
  }

  /** Charging one side of a sum charges the sum. */
  lemma SplitsOn(whole: Totals, part: Totals, rest: Totals, row: Row, amount: int, here: bool)
    requires whole == Plus(part, rest)
    ensures Charge(whole, row, amount)
            == Plus(if here then Charge(part, row, amount) else part, if here then rest else Charge(rest, row, amount))
  {
    ChargeIsAdditive(part, rest, row, amount);
  }

  /** A day and its complement partition the lifetime. */
  lemma {:induction false} TallySplits(rows: seq<Row>, d: int)
    ensures Tally(rows, Lifetime) == Plus(Tally(rows, On(d)), Tally(rows, Except(d)))
  {
    if rows == [] {
      NothingSplits(Tally(rows, Lifetime), Tally(rows, On(d)), Tally(rows, Except(d)));
    } else {
      var before, row := rows[..|rows| - 1], rows[|rows| - 1];
      TallySplits(before, d);
      assert rows == before + [row];
      TallyNext(before, row, Lifetime);
      TallyNext(before, row, On(d));
      TallyNext(before, row, Except(d));
      SplitsOn(Tally(before, Lifetime), Tally(before, On(d)), Tally(before, Except(d)), row, Amount(before, row),
               row.day == d);
    }
  }

  lemma {:induction false} LifetimeFits(rows: seq<Row>)
    requires Legal(rows)
    ensures Tally(rows, Lifetime).tokens.charged <= INT64_MAX
  {
    if rows != [] {
      LifetimeFits(rows[..|rows| - 1]);
    }
  }

  /** A part of balanced counters is bounded by the charge and the calls of the whole. */
  lemma PartFits(part: Totals, rest: Totals, whole: Totals)
    requires part.Balanced() && rest.Balanced() && whole == Plus(part, rest)
    requires whole.tokens.charged <= INT64_MAX && whole.calls.all <= OPERATIONS_MAX
    ensures part.InRange()
  {
  }

  lemma BalancedFits(t: Totals)
    requires t.Balanced() && t.tokens.charged <= INT64_MAX && t.calls.all <= OPERATIONS_MAX
    ensures t.InRange()
  {
  }

  lemma LifetimeTallyFits(rows: seq<Row>, t: Totals)
    requires Legal(rows)
    requires t == Tally(rows, Lifetime)
    ensures t.InRange()
  {
    LifetimeFits(rows);
    CallsFit(rows);
    TallyBalanced(rows, Lifetime);
    BalancedFits(t);
  }

  /** Every day of a legal journal fits the 64-bit counters. */
  lemma DayTallyFits(rows: seq<Row>, d: int, t: Totals)
    requires Legal(rows)
    requires t == Tally(rows, On(d))
    ensures t.InRange()
  {
    var whole, rest := Tally(rows, Lifetime), Tally(rows, Except(d));
    LifetimeFits(rows);
    CallsFit(rows);
    TallyBalanced(rows, On(d));
    TallyBalanced(rows, Except(d));
    TallySplits(rows, d);
    PartFits(t, rest, whole);
  }

  /** A row admitted by everything but the counters: charging it fails exactly when
    * the lifetime charge would pass the largest 64-bit value. No counter underflows. */
  lemma ChargeFitsExactly(before: seq<Row>, row: Row)
    requires Legal(before) && Shaped(before, row)
    ensures Charge(Tally(before, Lifetime), row, Amount(before, row)).InRange()
            <==> Tally(before, Lifetime).tokens.charged + row.delta <= INT64_MAX
    ensures Tally(before, Lifetime).tokens.charged + row.delta <= INT64_MAX ==>
              Charge(Tally(before, On(row.day)), row, Amount(before, row)).InRange()
  {
    if Tally(before, Lifetime).tokens.charged + row.delta <= INT64_MAX {
      assert (before + [row])[..|before|] == before;
      assert Legal(before + [row]);
      LifetimeTallyFits(before + [row], Charge(Tally(before, Lifetime), row, Amount(before, row)));
      DayTallyFits(before + [row], row.day, Charge(Tally(before, On(row.day)), row, Amount(before, row)));
    }
  }

  /** `Extends` without the requirement that the lifetime charge fits. */
  ghost predicate Shaped(before: seq<Row>, row: Row) {
    && row.Decodable()
    && (if row.reserved then
          && Tally(before, Lifetime).calls.all < OPERATIONS_MAX
          && row.id !in Reserved(before)
          && row.delta >= 0 && !row.known && row.input == 0 && row.output == 0
        else
          && row.id in Reserved(before) && row.id !in Settled(before)
          && Booked(before, row.id).day == row.day
          && Booked(before, row.id).identity == row.identity
          && row.delta == (if row.known then row.input + row.output - Booked(before, row.id).delta else 0))
  }

  // ---------------------------------------------------------------- which counter holds what

  /** What is summed over the rows of a window. */
  datatype Measure =
    | Reservations | Failures | Cancellations | UnknownCalls | KnownInput | KnownOutput | UnknownTokens | Deltas

  predicate SettledKnown(row: Row) { !row.reserved && row.known }

  predicate SettledUnknown(row: Row) { !row.reserved && !row.known }

  /** What one row adds; an unknown settlement stands for what its operation reserved. */
  function Adds(m: Measure, before: seq<Row>, row: Row): int {
    match m
    case Reservations => if row.reserved then 1 else 0
    case Failures => if !row.reserved && row.outcome !in {OK, CANCELLED} then 1 else 0
    case Cancellations => if !row.reserved && row.outcome == CANCELLED then 1 else 0
    case UnknownCalls => if SettledUnknown(row) then 1 else 0
    case KnownInput => if SettledKnown(row) then row.input else 0
    case KnownOutput => if SettledKnown(row) then row.output else 0
    case UnknownTokens => if SettledUnknown(row) then Amount(before, row) else 0
    case Deltas => row.delta
  }

  ghost function Sum(m: Measure, rows: seq<Row>, w: Window): int {
    if rows == [] then 0
    else
      var before, row := rows[..|rows| - 1], rows[|rows| - 1];
      Sum(m, before, w) + (if w.Has(row.day) then Adds(m, before, row) else 0)
  }

  ghost predicate CallSums(c: Calls, rows: seq<Row>, w: Window) {
    && c.all == Sum(Reservations, rows, w) && c.failed == Sum(Failures, rows, w)
    && c.cancelled == Sum(Cancellations, rows, w) && c.unknown == Sum(UnknownCalls, rows, w)
  }

  ghost predicate TokenSums(t: Tokens, rows: seq<Row>, w: Window) {
    && t.knownInput == Sum(KnownInput, rows, w) && t.knownOutput == Sum(KnownOutput, rows, w)
    && t.unknown == Sum(UnknownTokens, rows, w) && t.charged == Sum(Deltas, rows, w)
  }

  /** The sums, counter by counter. */
  ghost predicate Sums(t: Totals, rows: seq<Row>, w: Window) {
    CallSums(t.calls, rows, w) && TokenSums(t.tokens, rows, w)
  }

  lemma SumNext(m: Measure, before: seq<Row>, row: Row, w: Window)
    ensures Sum(m, before + [row], w) == Sum(m, before, w) + AddsIn(m, before, row, w)
  {
    assert (before + [row])[..|before|] == before;
  }

  /** What a row adds to a measure in a window. */
  function AddsIn(m: Measure, before: seq<Row>, row: Row, w: Window): int {
    if w.Has(row.day) then Adds(m, before, row) else 0
  }

  lemma CallsNext(before: seq<Row>, row: Row, w: Window, c: Calls, next: Calls)
    requires CallSums(c, before, w)
    requires next.all == c.all + AddsIn(Reservations, before, row, w)
    requires next.failed == c.failed + AddsIn(Failures, before, row, w)
    requires next.cancelled == c.cancelled + AddsIn(Cancellations, before, row, w)
    requires next.unknown == c.unknown + AddsIn(UnknownCalls, before, row, w)
    ensures CallSums(next, before + [row], w)
  {
    SumNext(Reservations, before, row, w);
    SumNext(Failures, before, row, w);
    SumNext(Cancellations, before, row, w);
    SumNext(UnknownCalls, before, row, w);
  }

  lemma TokensNext(before: seq<Row>, row: Row, w: Window, t: Tokens, next: Tokens)
    requires TokenSums(t, before, w)
    requires next.knownInput == t.knownInput + AddsIn(KnownInput, before, row, w)
    requires next.knownOutput == t.knownOutput + AddsIn(KnownOutput, before, row, w)
    requires next.unknown == t.unknown + AddsIn(UnknownTokens, before, row, w)
    requires next.charged == t.charged + AddsIn(Deltas, before, row, w)
    ensures TokenSums(next, before + [row], w)
  {
    SumNext(KnownInput, before, row, w);
    SumNext(KnownOutput, before, row, w);
    SumNext(UnknownTokens, before, row, w);
    SumNext(Deltas, before, row, w);
  }

  lemma SumsNext(before: seq<Row>, row: Row, w: Window, t: Totals, next: Totals)
    requires Sums(t, before, w) && next == (if w.Has(row.day) then Charge(t, row, Amount(before, row)) else t)
    ensures Sums(next, before + [row], w)
  {
    CallsNext(before, row, w, t.calls, next.calls);
    TokensNext(before, row, w, t.tokens, next.tokens);
  }

  /** Every counter of every window holds the sum that its name says. */
  lemma {:induction false} TallyIsSums(rows: seq<Row>, w: Window)
    ensures Sums(Tally(rows, w), rows, w)
  {
    if rows != [] {
      var before, row := rows[..|rows| - 1], rows[|rows| - 1];
      TallyIsSums(before, w);
      SumsNext(before, row, w, Tally(before, w), Tally(rows, w));
      assert rows == before + [row];
    }
  }

  // ---------------------------------------------------------------- the streaming day reset

  lemma {:induction false} MaxDayBounds(rows: seq<Row>, start: int)
    ensures start <= MaxDay(rows, start)
    ensures forall r :: r in rows ==> r.day <= MaxDay(rows, start)
    ensures MaxDay(rows, start) == start || exists r :: r in rows && r.day == MaxDay(rows, start)
  {
    if rows != [] {
      var before, row := rows[..|rows| - 1], rows[|rows| - 1];
      assert rows == before + [row];
      MaxDayBounds(before, start);
    }
  }

  lemma {:induction false} LaterDayIsEmpty(rows: seq<Row>, d: int)
    requires forall r :: r in rows ==> r.day < d
    ensures Tally(rows, On(d)).IsZero()
  {
    if rows != [] {
      LaterDayIsEmpty(rows[..|rows| - 1], d);
    }
  }

  /** The usage that the rows mean, seen from a clock that has reached `day`. */
  ghost function UsageOf(rows: seq<Row>, day: int): Usage {
    Usage(Tally(rows, Lifetime), Tally(rows, On(day)), day)
  }

  /** One streaming step keeps usage equal to the declarative filter. */
  lemma ObservedIsFilter(before: seq<Row>, row: Row, day: int)
    requires Legal(before) && Shaped(before, row)
    requires forall r :: r in before ==> r.day <= day
    ensures var o := Observed(UsageOf(before, day), row, Amount(before, row));
            && (o.Some? <==> Extends(before, row))
            && (o.Some? ==> o.value == UsageOf(before + [row], if row.day > day then row.day else day))
  {
    var now := if row.day > day then row.day else day;
    TallyNext(before, row, Lifetime);
    TallyNext(before, row, On(now));
    if row.day > day {
      LaterDayIsEmpty(before, row.day);
    }
    ChargeFitsExactly(before, row);
    assert Rolled(UsageOf(before, day), row.day) == UsageOf(before, now);
    if !row.reserved {
      BookedNonNegative(before, row.id);
    }
  }

  lemma {:induction false} BookedNonNegative(rows: seq<Row>, id: string)
    requires Legal(rows) && id in Reserved(rows)
    ensures Booked(rows, id).delta >= 0
  {
    var before, row := rows[..|rows| - 1], rows[|rows| - 1];
    assert rows == before + [row];
    if !(row.reserved && row.id == id) {
      BookedNonNegative(before, id);
    }
  }

  // ---------------------------------------------------------------- exact acceptance

  /** The book replay builds is the journal's own table of reservations. */
  ghost predicate BookOf(book: map<string, Reservation>, rows: seq<Row>) {
    && book.Keys == Reserved(rows)
    && forall id :: id in book ==>
         var b := Booked(rows, id);
         book[id] == Reservation(id, b.identity, b.day, b.delta, id in Settled(rows))
  }

  ghost function BookAfter(book: map<string, Reservation>, row: Row): map<string, Reservation>
    requires !row.reserved ==> row.id in book
  {
    if row.reserved then book[row.id := Reservation(row.id, row.identity, row.day, row.delta, false)]
    else book[row.id := book[row.id].(settled := true)]
  }

  /** The book after one more row is the book of the longer journal. */
  lemma BookGrows(book: map<string, Reservation>, before: seq<Row>, row: Row)
    requires BookOf(book, before)
    requires row.reserved ==> row.id !in Reserved(before) && row.id !in Settled(before)
    requires !row.reserved ==> row.id in Reserved(before)
    ensures BookOf(BookAfter(book, row), before + [row])
  {
    var rows := before + [row];
    assert rows[..|before|] == before;
  }

  lemma BookSize(book: map<string, Reservation>, rows: seq<Row>, calls: int)
    requires Legal(rows) && BookOf(book, rows)
    requires calls == Tally(rows, Lifetime).calls.all
    ensures |book| == calls
  {
    assert |book| == |book.Keys|;
    LegalIsPaired(rows);
    CallsAreReservations(rows, calls);
  }

  /** What replay looks up in its book is what the journal says. */
  lemma StepDecides(before: seq<Row>, s: Replayed, row: Row)
    requires BookOf(s.book, before) && |s.book| == Tally(before, Lifetime).calls.all
    ensures Step(s, row).Success? <==> Shaped(before, row) && Observed(s.usage, row, Amount(before, row)).Some?
    ensures Step(s, row).Success? ==>
              Step(s, row).value == Replayed(BookAfter(s.book, row), Observed(s.usage, row, Amount(before, row)).value)
  {
  }

  lemma StepMeaning(before: seq<Row>, s: Replayed, row: Row)
    requires Legal(before) && BookOf(s.book, before)
    requires s.usage == UsageOf(before, s.usage.utcDay)
    requires forall r :: r in before ==> r.day <= s.usage.utcDay
    ensures Step(s, row).Success? <==> Extends(before, row)
    ensures Step(s, row).Success? ==>
              && BookOf(Step(s, row).value.book, before + [row])
              && Step(s, row).value.usage
                 == UsageOf(before + [row], if row.day > s.usage.utcDay then row.day else s.usage.utcDay)
  {
    BookSize(s.book, before, Tally(before, Lifetime).calls.all);
    StepDecides(before, s, row);
    if Shaped(before, row) {
      ObservedIsFilter(before, row, s.usage.utcDay);
      SettledWereReserved(before);
      BookGrows(s.book, before, row);
    }
  }

  /** What a replay says of its journal. */
  ghost predicate Means(r: Result<Replayed>, rows: seq<Row>, start: int) {
    && (r.Success? <==> Legal(rows))
    && (r.Success? ==> r.value.usage == UsageOf(rows, MaxDay(rows, start)) && BookOf(r.value.book, rows))
  }

  lemma OneRowMore(before: seq<Row>, row: Row, start: int, rows: seq<Row>)
    requires rows == before + [row]
    ensures Legal(rows) <==> Legal(before) && Extends(before, row)
    ensures MaxDay(rows, start) == var m := MaxDay(before, start); if row.day > m then row.day else m
  {
    assert rows[..|rows| - 1] == before;
  }

  lemma MeansNext(before: seq<Row>, row: Row, start: int, s: Replayed, rows: seq<Row>)
    requires Means(Success(s), before, start) && rows == before + [row]
    ensures Means(Step(s, row), rows, start)
  {
    OneRowMore(before, row, start, rows);
    MaxDayBounds(before, start);
    StepMeaning(before, s, row);
  }

  lemma MeansNothing(before: seq<Row>, row: Row, start: int, e: Status, rows: seq<Row>)
    requires Means(Failure(e), before, start) && rows == before + [row]
    ensures Means(Failure(e), rows, start)
  {
    OneRowMore(before, row, start, rows);
  }

  lemma MeansFirst(start: int)
    ensures Means(Success(Fresh(start)), [], start)
  {
  }

  lemma ReplayNext(rows: seq<Row>, start: int, before: seq<Row>, row: Row, s: Replayed)
    requires rows != [] && before == rows[..|rows| - 1] && row == rows[|rows| - 1]
    requires Replay(before, start) == Success(s)
    ensures Replay(rows, start) == Step(s, row)
  {
  }

  lemma ReplayFails(rows: seq<Row>, start: int, before: seq<Row>, e: Status)
    requires rows != [] && before == rows[..|rows| - 1] && Replay(before, start) == Failure(e)
    ensures Replay(rows, start) == Failure(e)
  {
  }

  lemma MeansOn(rows: seq<Row>, start: int, before: seq<Row>, row: Row, previous: Result<Replayed>)
    requires rows != [] && before == rows[..|rows| - 1] && row == rows[|rows| - 1] && rows == before + [row]
    requires previous == Replay(before, start) && Means(previous, before, start)
    ensures Means(Replay(rows, start), rows, start)
  {
    match previous
    case Success(s) =>
      ReplayNext(rows, start, before, row, s);
      MeansNext(before, row, start, s, rows);
    case Failure(e) =>
      ReplayFails(rows, start, before, e);
      MeansNothing(before, row, start, e, rows);
  }

  lemma {:induction false} ReplayMeans(rows: seq<Row>, start: int)
    ensures Means(Replay(rows, start), rows, start)
  {
    if rows == [] {
      MeansFirst(start);
    } else {
      var before, row := rows[..|rows| - 1], rows[|rows| - 1];
      ReplayMeans(before, start);
      MeansOn(rows, start, before, row, Replay(before, start));
    }
  }

  /** Replay accepts exactly the legal journals, whatever day it starts from, and then
    * yields the lifetime totals and the totals of exactly the rows of the latest day. */
  lemma ReplayMeaning(rows: seq<Row>, start: int)
    ensures Replay(rows, start).Success? <==> Legal(rows)
    ensures Replay(rows, start).Success? ==>
              && Replay(rows, start).value.usage == UsageOf(rows, MaxDay(rows, start))
              && BookOf(Replay(rows, start).value.book, rows)
  {
    ReplayMeans(rows, start);
  }
}
