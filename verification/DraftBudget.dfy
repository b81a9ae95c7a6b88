/** When a draft ends by itself: how far the session's budget bounds it, and how a refused
  * reservation, which looks like one more cut-off, keeps it going for ever. */
module DraftBudget {
  import opened Statuses
  import opened Utf8
  import opened Consumption
  import opened Operations
  import opened Draft

  /** No single call reports more tokens, in and out. */
  const LARGEST: int := 2 * INT_MAX

  // ---------------------------------------------------------------- the session's budget

  /** The rounds a draft survived without a token reported. */
  function Quiet(normal: Normal, a: Account, complete: seq<byte>, rounds: seq<Round>): nat
    decreases |rounds|
  {
    if rounds == [] then 0
    else
      var p := Advance(normal, a, complete, rounds[0]);
      if !p.result.Running? then 0
      else
        (if Answered(a.engine, rounds[0]).tout > 0 then 0 else 1)
        + Quiet(normal, p.account, p.result.accepted, rounds[1..])
  }

  lemma SurvivorIsCharged(normal: Normal, a: Account, accepted: seq<byte>, answer: Answer, r: Round)
    ensures var p := Concluded(normal, a, accepted, answer, r);
            p.result.Running? ==>
              && p.account.sessionTokens == a.sessionTokens && p.account.spent == a.spent && !OverSession(p.account)
              && p.account.gtAux == a.gtAux + (if answer.tout > 0 then answer.tout else 0)
  {
  }

  /** Every token counts: with a session budget, only rounds without a token go on beyond it. */
  lemma {:induction false} OnlyQuietRoundsGoOn(normal: Normal, a: Account, complete: seq<byte>, rounds: seq<Round>)
    requires a.sessionTokens > 0 && rounds != []
    requires Drafted(normal, a, complete, rounds).result.Running?
    ensures |rounds| + a.spent + a.gtAux < a.sessionTokens + Quiet(normal, a, complete, rounds)
    decreases |rounds|
  {
    var p := Advance(normal, a, complete, rounds[0]);
    var answer := Answered(a.engine, rounds[0]);
    SurvivorIsCharged(normal, Left(a, answer), Accepted(complete, answer.chunk), answer, rounds[0]);
    if rounds[1..] != [] {
      OnlyQuietRoundsGoOn(normal, p.account, p.result.accepted, rounds[1..]);
    }
  }

  /** With a session budget, and a token for each round that is cut off, a draft ends within what
    * is left of the session. */
  lemma TalkingDraftEnds(normal: Normal, a: Account, complete: seq<byte>, rounds: seq<Round>)
    requires a.sessionTokens > 0 && rounds != [] && |rounds| >= a.sessionTokens - a.spent - a.gtAux
    requires Quiet(normal, a, complete, rounds) == 0
    ensures !Drafted(normal, a, complete, rounds).result.Running?
  {
    if Drafted(normal, a, complete, rounds).result.Running? {
      OnlyQuietRoundsGoOn(normal, a, complete, rounds);
      assert false;
    }
  }

  // ---------------------------------------------------------------- the journal's limit

  predicate Opened(s: State, r: Round) {
    r.assembled == OK && r.validated == OK && Began(s, r.call).1 == OK
  }

  /** The rounds a draft survived without an operation begun. */
  function Idle(normal: Normal, a: Account, complete: seq<byte>, rounds: seq<Round>): nat
    decreases |rounds|
  {
    if rounds == [] then 0
    else
      var p := Advance(normal, a, complete, rounds[0]);
      if !p.result.Running? then 0
      else (if Opened(a.engine, rounds[0]) then 0 else 1) + Idle(normal, p.account, p.result.accepted, rounds[1..])
  }

  function CallsLeft(s: State): nat {
    var calls := s.usage.lifetime.calls.all;
    if calls < OPERATIONS_MAX then OPERATIONS_MAX - calls else 0
  }

  lemma RecordCounts(s: State, row: Row, reserved: int, append: Append)
    requires append.WellFormed()
    ensures var (t, e) := Recorded(s, row, reserved, append);
            t.usage.lifetime.calls.all == s.usage.lifetime.calls.all + (if e == OK && row.reserved then 1 else 0)
  {
  }

  lemma BeginCounts(s: State, c: Call)
    requires c.reserved.WellFormed()
    ensures var (t, e) := Began(s, c); CallsLeft(t) == CallsLeft(s) - (if e == OK then 1 else 0)
  {
    var now := s.(usage := Rolled(s.usage, c.began));
    RecordCounts(now, ReserveRow(Op(c.id, c.identity, now.usage.utcDay, c.reserve)), c.reserve, c.reserved);
  }

  lemma FinishCounts(s: State, c: Call)
    requires c.settled.WellFormed()
    ensures CallsLeft(Finished(s, c).0) == CallsLeft(s)
  {
    var reply, now := Given(c.reply), s.(usage := Rolled(s.usage, c.finished));
    var op := Op(c.id, c.identity, s.usage.utcDay, c.reserve);
    RecordCounts(now, SettleRow(op, reply.input, reply.output, reply.known, reply.e), op.reserved, c.settled);
  }

  lemma AnswerCounts(s: State, r: Round)
    requires r.call.reserved.WellFormed() && r.call.settled.WellFormed()
    ensures CallsLeft(Answered(s, r).engine) == CallsLeft(s) - (if Opened(s, r) then 1 else 0)
  {
    BeginCounts(s, r.call);
    FinishCounts(Began(s, r.call).0, r.call);
  }

  lemma ConcludedCounts(normal: Normal, a: Account, accepted: seq<byte>, answer: Answer, r: Round)
    ensures CallsLeft(Concluded(normal, a, accepted, answer, r).account.engine) == CallsLeft(a.engine)
  {
  }

  /** Whatever the budgets, the journal takes only so many operations: a draft that outlives them
    * is kept going by rounds in which no model was asked. */
  lemma {:induction false} LongDraftsAreIdle(normal: Normal, a: Account, complete: seq<byte>, rounds: seq<Round>)
    requires forall r :: r in rounds ==> r.call.reserved.WellFormed() && r.call.settled.WellFormed()
    requires Drafted(normal, a, complete, rounds).result.Running?
    ensures |rounds| <= CallsLeft(a.engine) + Idle(normal, a, complete, rounds)
    decreases |rounds|
  {
    if rounds != [] {
      var p := Advance(normal, a, complete, rounds[0]);
      AnswerCounts(a.engine, rounds[0]);
      var answer := Answered(a.engine, rounds[0]);
      ConcludedCounts(normal, Left(a, answer), Accepted(complete, answer.chunk), answer, rounds[0]);
      LongDraftsAreIdle(normal, p.account, p.result.accepted, rounds[1..]);
    }
  }

  // ---------------------------------------------------------------- a refused reservation

  /** A reservation comes back as LIMIT: the journal is full, the day has too little left, or the
    * charge would leave 64 bits. */
  predicate NoRoom(s: State, c: Call) {
    || s.usage.lifetime.calls.all >= OPERATIONS_MAX
    || (s.dailyTokens > 0 && c.reserve > s.dailyTokens - s.usage.today.tokens.charged)
    || Observed(s.usage, ReserveRow(Op(c.id, c.identity, s.usage.utcDay, c.reserve)), c.reserve).None?
  }

  /** The round gets as far as asking for a reservation, within the day. */
  predicate Prepared(r: Round, day: int) {
    && r.prompt == OK && r.assembled == OK && r.capacity && r.directive == OK && r.validated == OK
    && r.call.valid && r.call.reserve >= 0
    && r.call.began <= day && r.call.finished <= day && r.clock <= day
  }

  lemma RefusalChangesNothing(s: State, r: Round)
    requires Prepared(r, s.usage.utcDay) && NoRoom(s, r.call) && !s.recoveryRequired
    ensures Answered(s, r) == Answer(LIMIT, [], 0, s)
  {
  }

  predicate Over(a: Account) {
    OverSession(a) || OverDay(a.engine)
  }

  lemma RefusedRound(normal: Normal, a: Account, complete: seq<byte>, r: Round)
    requires Prepared(r, a.engine.usage.utcDay) && NoRoom(a.engine, r.call) && !a.engine.recoveryRequired
    ensures Advance(normal, a, complete, r)
            == Progress(if complete == [] || Over(a) then Error(LIMIT) else Running(complete), a)
  {
    RefusalChangesNothing(a.engine, r);
    var answer := Answered(a.engine, r);
    ConcludeLimit(normal, Left(a, answer), complete, answer, r);
  }

  lemma ConcludeLimit(normal: Normal, a: Account, accepted: seq<byte>, answer: Answer, r: Round)
    requires answer.e == LIMIT && (answer.chunk == [] || r.stored == OK) && r.clock <= a.engine.usage.utcDay
    ensures var now := Charged(a, answer.tout);
            Concluded(normal, a, accepted, answer, r)
            == Progress(if accepted == [] || Over(now) then Error(LIMIT) else Running(accepted), now)
  {
  }

  /** Reservations that are refused while the budgets are not used up are refused for ever: the
    * draft takes each for a cut-off and goes on, and nothing changes. */
  lemma {:induction false} RefusedDraftGoesOn(normal: Normal, a: Account, complete: seq<byte>, rounds: seq<Round>)
    requires complete != [] && !Over(a) && !a.engine.recoveryRequired
    requires forall r :: r in rounds ==> Prepared(r, a.engine.usage.utcDay) && NoRoom(a.engine, r.call)
    ensures Drafted(normal, a, complete, rounds) == Progress(Running(complete), a)
    decreases |rounds|
  {
    if rounds != [] {
      RefusedRound(normal, a, complete, rounds[0]);
      RefusedDraftGoesOn(normal, a, complete, rounds[1..]);
    }
  }

  /** So it is whenever the day has something left, but less than any later call reserves. */
  lemma DayLivelock(normal: Normal, a: Account, complete: seq<byte>, rounds: seq<Round>)
    requires complete != [] && a.sessionTokens <= 0 && !a.engine.recoveryRequired && a.engine.dailyTokens > 0
    requires forall r :: r in rounds ==>
               && Prepared(r, a.engine.usage.utcDay)
               && 0 < a.engine.dailyTokens - a.engine.usage.today.tokens.charged < r.call.reserve
    ensures Drafted(normal, a, complete, rounds) == Progress(Running(complete), a)
  {
    if rounds != [] {
      assert rounds[0] in rounds;
      RefusedDraftGoesOn(normal, a, complete, rounds);
    }
  }

  // ---------------------------------------------------------------- the arithmetic of admission

  /** A provider that is cut off and reports its tokens. */
  predicate Cut(r: Round, day: int) {
    && Prepared(r, day) && r.stored == OK
    && r.call.reserved == Stored && r.call.settled == Stored
    && !r.call.reply.cancelled && !r.call.reply.late && r.call.reply.e == LIMIT && r.call.reply.known
    && 0 <= r.call.reply.input <= INT_MAX && 0 <= r.call.reply.output <= INT_MAX
  }

  ghost predicate AllCut(rounds: seq<Round>, day: int) {
    forall r :: r in rounds ==> Cut(r, day)
  }

  /** How much has been used: operations, tokens ever and of the day, tokens of the turn. */
  datatype Standing = Standing(calls: int, ever: int, today: int, turn: int)

  function At(a: Account): Standing {
    var u := a.engine.usage;
    Standing(u.lifetime.calls.all, u.lifetime.tokens.charged, u.today.tokens.charged, a.gtAux)
  }

  /** The limits of an account leave room for a reservation. */
  predicate Fits(a: Account, w: Standing, reserve: int) {
    && w.calls < OPERATIONS_MAX && w.ever + reserve <= INT64_MAX
    && (a.engine.dailyTokens > 0 ==> reserve <= a.engine.dailyTokens - w.today)
  }

  predicate UsedUp(a: Account, w: Standing) {
    || (a.sessionTokens > 0 && a.spent + w.turn >= a.sessionTokens)
    || (a.engine.dailyTokens > 0 && w.today >= a.engine.dailyTokens)
  }

  function Used(r: Round): int { r.call.reply.input + r.call.reply.output }

  /** A call that is admitted uses its tokens; one that is not uses nothing. */
  function Onward(a: Account, w: Standing, r: Round): Standing {
    if !Fits(a, w, r.call.reserve) then w
    else Standing(w.calls + 1, w.ever + Used(r), w.today + Used(r), w.turn + r.call.reply.output)
  }

  function Walk(a: Account, w: Standing, rounds: seq<Round>): Standing
    decreases |rounds|
  {
    if rounds == [] then w else Walk(a, Onward(a, w, rounds[0]), rounds[1..])
  }

  /** The same limits. */
  predicate Alike(a: Account, b: Account) {
    && b.sessionTokens == a.sessionTokens && b.spent == a.spent
    && b.engine.dailyTokens == a.engine.dailyTokens && b.engine.usage.utcDay == a.engine.usage.utcDay
  }

  lemma {:induction false} WalkAlike(a: Account, b: Account, w: Standing, rounds: seq<Round>)
    requires Alike(a, b)
    ensures Walk(a, w, rounds) == Walk(b, w, rounds)
    decreases |rounds|
  {
    if rounds != [] { WalkAlike(a, b, Onward(a, w, rounds[0]), rounds[1..]); }
  }

  predicate NoLess(v: Standing, w: Standing) {
    w.calls <= v.calls && w.today <= v.today && w.turn <= v.turn
  }

  lemma {:induction false} WalkGrows(a: Account, w: Standing, rounds: seq<Round>, day: int)
    requires AllCut(rounds, day)
    ensures var v := Walk(a, w, rounds); NoLess(v, w) && (v == w || v.calls > w.calls)
    decreases |rounds|
  {
    if rounds != [] {
      assert rounds[0] in rounds;
      WalkGrows(a, Onward(a, w, rounds[0]), rounds[1..], day);
    }
  }

  // ---------------------------------------------------------------- the engine does that arithmetic

  /** Counters that the tokens still to be used cannot carry out of 64 bits. */
  predicate Roomy(s: State, t: Totals) {
    && t.Balanced() && t.calls.all <= s.usage.lifetime.calls.all
    && t.tokens.charged <= s.usage.lifetime.tokens.charged <= INT64_MAX - LARGEST * CallsLeft(s)
  }

  predicate Steady(s: State) {
    !s.recoveryRequired && Roomy(s, s.usage.lifetime) && Roomy(s, s.usage.today)
  }

  lemma ChargesFit(t: Totals, first: Row, second: Row, reserve: int, input: int, output: int)
    requires t.Balanced() && t.calls.all < OPERATIONS_MAX && t.tokens.charged <= INT64_MAX - LARGEST
    requires 0 <= reserve && 0 <= input <= INT_MAX && 0 <= output <= INT_MAX
    requires first.reserved && first.delta == reserve
    requires !second.reserved && second.known && second.outcome == LIMIT
    requires second.input == input && second.output == output && second.delta == input + output - reserve
    ensures var u := Charge(t, first, reserve);
            var v := Charge(u, second, reserve);
            && (u.InRange() <==> t.tokens.charged + reserve <= INT64_MAX)
            && v.InRange() && v.Balanced()
            && v.tokens.charged == t.tokens.charged + input + output && v.calls.all == t.calls.all + 1
  {
  }

  /** A reservation has room exactly when the arithmetic says so. */
  lemma RoomIsFit(a: Account, c: Call)
    requires Steady(a.engine) && c.reserve >= 0
    ensures NoRoom(a.engine, c) <==> !Fits(a, At(a), c.reserve)
  {
    var s := a.engine;
    if s.usage.lifetime.calls.all < OPERATIONS_MAX {
      var op := Op(c.id, c.identity, s.usage.utcDay, c.reserve);
      ChargesFit(s.usage.lifetime, ReserveRow(op), SettleRow(op, 0, 0, true, LIMIT), c.reserve, 0, 0);
      ChargesFit(s.usage.today, ReserveRow(op), SettleRow(op, 0, 0, true, LIMIT), c.reserve, 0, 0);
    }
  }

  /** What an admitted call leaves: one operation more, its tokens charged to lifetime and day. */
  predicate Moved(s: State, t: State, used: int) {
    && t.usage.utcDay == s.usage.utcDay && t.dailyTokens == s.dailyTokens
    && t.usage.lifetime.calls.all == s.usage.lifetime.calls.all + 1
    && t.usage.lifetime.tokens.charged == s.usage.lifetime.tokens.charged + used
    && t.usage.today.tokens.charged == s.usage.today.tokens.charged + used
  }

  lemma AdmittedCall(s: State, r: Round)
    requires Cut(r, s.usage.utcDay) && Steady(s) && !NoRoom(s, r.call)
    ensures var answer := Answered(s, r);
            && answer.e == LIMIT && answer.chunk == r.call.reply.chunk && answer.tout == r.call.reply.output
            && Steady(answer.engine) && Moved(s, answer.engine, Used(r))
  {
    var reserve, input, output := r.call.reserve, r.call.reply.input, r.call.reply.output;
    var op := Op(r.call.id, r.call.identity, s.usage.utcDay, reserve);
    var first, second := ReserveRow(op), SettleRow(op, input, output, true, LIMIT);
    ChargesFit(s.usage.lifetime, first, second, reserve, input, output);
    ChargesFit(s.usage.today, first, second, reserve, input, output);
  }

  lemma AdmittedRound(normal: Normal, a: Account, complete: seq<byte>, r: Round)
    requires Cut(r, a.engine.usage.utcDay) && Steady(a.engine) && !NoRoom(a.engine, r.call)
    ensures var p, accepted := Advance(normal, a, complete, r), Accepted(complete, r.call.reply.chunk);
            && p.result == (if accepted == [] || Over(p.account) then Error(LIMIT) else Running(accepted))
            && Steady(p.account.engine) && Moved(a.engine, p.account.engine, Used(r))
            && p.account.gtAux == a.gtAux + r.call.reply.output
            && p.account.sessionTokens == a.sessionTokens && p.account.spent == a.spent
  {
    AdmittedCall(a.engine, r);
    var answer := Answered(a.engine, r);
    ConcludeLimit(normal, Left(a, answer), Accepted(complete, answer.chunk), answer, r);
  }

  /** What a round that is cut off leaves accepted: nothing new unless its call is admitted. */
  function Continued(a: Account, w: Standing, complete: seq<byte>, r: Round): seq<byte> {
    if Fits(a, w, r.call.reserve) then Accepted(complete, r.call.reply.chunk) else complete
  }

  /** One round moves the account as the arithmetic says, and goes on unless a budget is used up or
    * there is nothing to continue. */
  lemma CutRound(normal: Normal, a: Account, complete: seq<byte>, r: Round)
    requires Cut(r, a.engine.usage.utcDay) && Steady(a.engine)
    ensures var p, kept := Advance(normal, a, complete, r), Continued(a, At(a), complete, r);
            && Alike(a, p.account) && Steady(p.account.engine) && At(p.account) == Onward(a, At(a), r)
            && p.result == (if kept == [] || UsedUp(a, At(p.account)) then Error(LIMIT) else Running(kept))
  {
    RoomIsFit(a, r.call);
    if NoRoom(a.engine, r.call) {
      RefusedRound(normal, a, complete, r);
    } else {
      AdmittedRound(normal, a, complete, r);
    }
  }

  // ---------------------------------------------------------------- for ever, exactly

  /** There is something to continue after the first round. */
  predicate Starts(a: Account, complete: seq<byte>, r: Round) {
    complete != [] || (Fits(a, At(a), r.call.reserve) && r.call.reply.chunk != [])
  }

  /** Within one day, whatever is reserved and reported: a draft that is cut off every time is still
    * running exactly when it started and what its admitted calls used is within both budgets. */
  lemma {:induction false} RunsOnIff(normal: Normal, a: Account, complete: seq<byte>, rounds: seq<Round>)
    requires rounds != [] && AllCut(rounds, a.engine.usage.utcDay) && Steady(a.engine)
    ensures Drafted(normal, a, complete, rounds).result.Running?
            <==> Starts(a, complete, rounds[0]) && !UsedUp(a, Walk(a, At(a), rounds))
    decreases |rounds|
  {
    var r, rest := rounds[0], rounds[1..];
    assert r in rounds;
    var p, kept := Advance(normal, a, complete, r), Continued(a, At(a), complete, r);
    CutRound(normal, a, complete, r);
    AcceptedExtends(complete, r.call.reply.chunk);
    assert kept != [] <==> Starts(a, complete, r);
    WalkAlike(a, p.account, At(p.account), rest);
    WalkGrows(a, At(p.account), rest, a.engine.usage.utcDay);
    if p.result.Running? && rest != [] {
      RunsOnIff(normal, p.account, kept, rest);
    }
  }

  function Prefix(rounds: nat -> Round, n: nat): (s: seq<Round>)
    ensures |s| == n && forall i :: 0 <= i < n ==> s[i] == rounds(i)
  {
    seq(n, i requires 0 <= i < n => rounds(i))
  }

  ghost predicate GoesOn(normal: Normal, a: Account, complete: seq<byte>, rounds: nat -> Round, n: nat) {
    Drafted(normal, a, complete, Prefix(rounds, n)).result.Running?
  }

  /** After k rounds within both budgets no later reservation is admitted. */
  ghost predicate Stalls(a: Account, rounds: nat -> Round, k: nat) {
    var w := Walk(a, At(a), Prefix(rounds, k));
    !UsedUp(a, w) && forall j: nat :: k <= j ==> !Fits(a, w, rounds(j).call.reserve)
  }

  lemma {:induction false} WalkSplits(a: Account, w: Standing, front: seq<Round>, back: seq<Round>)
    ensures Walk(a, w, front + back) == Walk(a, Walk(a, w, front), back)
    decreases |front|
  {
    if front == [] {
      assert front + back == back;
    } else {
      assert (front + back)[1..] == front[1..] + back;
      WalkSplits(a, Onward(a, w, front[0]), front[1..], back);
    }
  }

  /** One more round of an endless draft. */
  lemma OneMore(a: Account, rounds: nat -> Round, n: nat)
    ensures Walk(a, At(a), Prefix(rounds, n + 1)) == Onward(a, Walk(a, At(a), Prefix(rounds, n)), rounds(n))
  {
    assert Prefix(rounds, n + 1) == Prefix(rounds, n) + [rounds(n)];
    WalkSplits(a, At(a), Prefix(rounds, n), [rounds(n)]);
  }

  lemma {:induction false} LaterIsNoLess(a: Account, rounds: nat -> Round, day: int, k: nat, n: nat)
    requires k <= n && forall i: nat :: Cut(rounds(i), day)
    ensures var w, v := Walk(a, At(a), Prefix(rounds, k)), Walk(a, At(a), Prefix(rounds, n));
            NoLess(v, w) && (v == w || v.calls > w.calls)
    decreases n
  {
    if k < n {
      LaterIsNoLess(a, rounds, day, k, n - 1);
      OneMore(a, rounds, n - 1);
    }
  }

  lemma {:induction false} StallStays(a: Account, rounds: nat -> Round, k: nat, n: nat)
    requires k <= n && Stalls(a, rounds, k)
    ensures Walk(a, At(a), Prefix(rounds, n)) == Walk(a, At(a), Prefix(rounds, k))
    decreases n
  {
    if k < n {
      StallStays(a, rounds, k, n - 1);
      OneMore(a, rounds, n - 1);
    }
  }

  /** The journal takes only so many operations, so at some point the last one has been admitted. */
  lemma {:induction false} AdmissionEnds(a: Account, rounds: nat -> Round, day: int, k: nat) returns (last: nat)
    requires forall i: nat :: Cut(rounds(i), day)
    ensures forall j: nat :: last <= j ==> !Fits(a, Walk(a, At(a), Prefix(rounds, last)), rounds(j).call.reserve)
    decreases OPERATIONS_MAX - Walk(a, At(a), Prefix(rounds, k)).calls
  {
    var w := Walk(a, At(a), Prefix(rounds, k));
    last := k;
    if j: nat :| k <= j && Fits(a, w, rounds(j).call.reserve) {
      LaterIsNoLess(a, rounds, day, k, j);
      OneMore(a, rounds, j);
      last := AdmissionEnds(a, rounds, day, j + 1);
    }
  }

  lemma RunsWhile(normal: Normal, a: Account, complete: seq<byte>, rounds: nat -> Round, n: nat)
    requires n > 0 && (forall i: nat :: Cut(rounds(i), a.engine.usage.utcDay)) && Steady(a.engine)
    ensures GoesOn(normal, a, complete, rounds, n)
            <==> Starts(a, complete, rounds(0)) && !UsedUp(a, Walk(a, At(a), Prefix(rounds, n)))
  {
    RunsOnIff(normal, a, complete, Prefix(rounds, n));
  }

  /** Within one day a draft that is cut off every time goes on for ever exactly when it started and
    * comes to a point, with neither budget used up, from which on every reservation is refused. */
  lemma RunsForEverIff(normal: Normal, a: Account, complete: seq<byte>, rounds: nat -> Round)
    requires (forall i: nat :: Cut(rounds(i), a.engine.usage.utcDay)) && Steady(a.engine)
    ensures (forall n: nat :: GoesOn(normal, a, complete, rounds, n))
            <==> Starts(a, complete, rounds(0)) && exists k: nat :: Stalls(a, rounds, k)
  {
    var day := a.engine.usage.utcDay;
    if forall n: nat :: GoesOn(normal, a, complete, rounds, n) {
      var last := AdmissionEnds(a, rounds, day, 0);
      RunsWhile(normal, a, complete, rounds, last + 1);
      LaterIsNoLess(a, rounds, day, last, last + 1);
      assert GoesOn(normal, a, complete, rounds, last + 1);
      assert Stalls(a, rounds, last);
    }
    if k: nat :| Starts(a, complete, rounds(0)) && Stalls(a, rounds, k) {
      forall n: nat ensures GoesOn(normal, a, complete, rounds, n) {
        StallRunsOn(normal, a, complete, rounds, k, n);
      }
    }
  }

  lemma StallRunsOn(normal: Normal, a: Account, complete: seq<byte>, rounds: nat -> Round, k: nat, n: nat)
    requires (forall i: nat :: Cut(rounds(i), a.engine.usage.utcDay)) && Steady(a.engine)
    requires Starts(a, complete, rounds(0)) && Stalls(a, rounds, k)
    ensures GoesOn(normal, a, complete, rounds, n)
  {
    if n > 0 {
      RunsWhile(normal, a, complete, rounds, n);
      if n <= k { LaterIsNoLess(a, rounds, a.engine.usage.utcDay, n, k); } else { StallStays(a, rounds, k, n); }
    }
  }

  /** The tokens that the first n rounds report. */
  function Outputs(rounds: seq<Round>, n: nat): int
    requires n <= |rounds|
  {
    if n == 0 then 0 else rounds[0].call.reply.output + Outputs(rounds[1..], n - 1)
  }

  /** Without a budget for the day, and with reservations that 64 bits hold, only the session's budget
    * can end the draft: what counts are the tokens of as many rounds as the journal still takes. */
  lemma {:induction false} WithoutDayBudget(a: Account, w: Standing, rounds: seq<Round>, day: int)
    requires a.engine.dailyTokens <= 0 && AllCut(rounds, day) && w.calls <= OPERATIONS_MAX
    requires forall r :: r in rounds ==> w.ever + LARGEST * (OPERATIONS_MAX - w.calls) + r.call.reserve <= INT64_MAX
    ensures var left := OPERATIONS_MAX - w.calls;
            Walk(a, w, rounds).turn == w.turn + Outputs(rounds, if |rounds| < left then |rounds| else left)
    decreases |rounds|
  {
    if rounds != [] {
      var r := rounds[0];
      assert r in rounds;
      WithoutDayBudget(a, Onward(a, w, r), rounds[1..], day);
    }
  }
}
