/** Drafting a file in rounds: each continuation is joined to what is accepted so far by its
  * longest overlap, and the turn's phase is put back on every way out. */
module Draft {
  import opened Statuses
  import opened Utf8
  import opened Consumption
  import opened Operations

  const OVERLAP_MAX: nat := 4096

  datatype Phase = ACTION | DRAFT | RESPONSE

  // ---------------------------------------------------------------- joining

  /** The end of a is the beginning of b, n bytes long. */
  predicate Overlaps(a: seq<byte>, b: seq<byte>, n: nat) {
    n <= |a| && n <= |b| && a[|a| - n..] == b[..n]
  }

  function Limit(a: seq<byte>, b: seq<byte>): (n: nat)
    ensures n <= |a| && n <= |b| && n <= OVERLAP_MAX
  {
    var n := if |a| < |b| then |a| else |b|;
    if n > OVERLAP_MAX then OVERLAP_MAX else n
  }

  /** The longest overlap of at most n bytes. */
  function Longest(a: seq<byte>, b: seq<byte>, n: nat): (r: nat)
    requires n <= |a| && n <= |b|
    ensures r <= n && Overlaps(a, b, r)
    ensures forall k {:trigger Overlaps(a, b, k)} :: r < k <= n ==> !Overlaps(a, b, k)
  {
    if n > 0 && !Overlaps(a, b, n) then Longest(a, b, n - 1) else n
  }

  function Joined(a: seq<byte>, b: seq<byte>): seq<byte> {
    a + b[Longest(a, b, Limit(a, b))..]
  }

  /** z begins with a, ends with b, and the two overlap in it by at most the limit. */
  predicate Merges(z: seq<byte>, a: seq<byte>, b: seq<byte>) {
    && a <= z && |b| <= |z| && z[|z| - |b|..] == b
    && |z| <= |a| + |b| <= |z| + 4096 && |b| + |a| - |z| <= |b| && |a| + |b| - |z| <= |a|
  }

  lemma MergeOverlaps(z: seq<byte>, a: seq<byte>, b: seq<byte>)
    requires Merges(z, a, b)
    ensures Overlaps(a, b, |a| + |b| - |z|)
  {
    var n := |a| + |b| - |z|;
    assert a == z[..|a|];
    assert z[|z| - |b|..][..n] == z[|a| - n..|a|] == a[|a| - n..];
  }

  lemma JoinMerges(a: seq<byte>, b: seq<byte>, n: nat)
    requires n <= OVERLAP_MAX && Overlaps(a, b, n)
    ensures Merges(a + b[n..], a, b)
  {
    var z := a + b[n..];
    assert z[|z| - |b|..] == a[|a| - n..] + b[n..];
    assert b[..n] + b[n..] == b;
  }

  /** The join keeps all of both texts, and no merge of them is shorter. */
  lemma JoinIsShortestMerge(a: seq<byte>, b: seq<byte>)
    ensures Merges(Joined(a, b), a, b)
    ensures forall z :: Merges(z, a, b) ==> |Joined(a, b)| <= |z|
  {
    JoinMerges(a, b, Longest(a, b, Limit(a, b)));
    forall w | Merges(w, a, b) ensures |Joined(a, b)| <= |w| {
      MergeOverlaps(w, a, b);
    }
  }

  // ---------------------------------------------------------------- one call of the model

  /** What a draft spends from: the session's limit and what its committed turns spent, what this
    * turn has generated so far, and the engine's projection with the day's limit. */
  datatype Account = Account(sessionTokens: int, spent: int, gtAux: nat, engine: State)

  /** What the provider makes of a call, unless the turn was cancelled or its deadline passed
    * before it was asked. */
  datatype Reply = Reply(cancelled: bool, late: bool, e: Status, chunk: seq<byte>, input: int, output: int, known: bool)

  /** A call, whose request the engine finds valid or not (`Operations.ValidRequest`). */
  datatype Call = Call(valid: bool, id: string, identity: Identity, reserve: int, began: int, reserved: Append,
                       reply: Reply, finished: int, settled: Append)

  function Unasked(reply: Reply, e: Status): Reply {
    reply.(e := e, chunk := [], input := 0, output := 0, known := true)
  }

  function Given(reply: Reply): Reply {
    if reply.cancelled then Unasked(reply, CANCELLED)
    else if reply.late then Unasked(reply, TIMEOUT)
    else reply
  }

  /** A status as it comes back through the model manager, whose own codes are fewer. */
  function Carried(e: Status): Status {
    match e
    case OK | INVALID | NOMEM | BUSY | LIMIT | CANCELLED | UNSUPPORTED | TIMEOUT => e
    case _ => MODEL
  }

  /** What one generation comes to: its status, text and tokens, and the engine afterwards. */
  datatype Answer = Answer(e: Status, chunk: seq<byte>, tout: int, engine: State)

  function Began(s: State, c: Call): (State, Status) {
    if c.valid then Reserving(s, c.id, c.identity, c.reserve, c.began, c.reserved) else (s, INVALID)
  }

  function Finished(s: State, c: Call): (State, Status) {
    var reply := Given(c.reply);
    if reply.input < 0 || reply.output < 0 then (s, INVALID)
    else
      Ended(s, Op(c.id, c.identity, s.usage.utcDay, c.reserve), reply.input, reply.output, reply.known,
            reply.e, c.finished, c.settled)
  }

  /** Reserve, ask, settle. A refused reservation never reaches the provider; a failed
    * settlement overrides what the provider said. */
  function Inferred(s: State, c: Call): Answer {
    var (begun, e) := Began(s, c);
    if e != OK then Answer(Carried(e), [], 0, begun)
    else
      var (ended, saved) := Finished(begun, c);
      var reply := Given(c.reply);
      Answer(Carried(if saved == OK then reply.e else saved), reply.chunk, reply.output, ended)
  }

  // ---------------------------------------------------------------- one round

  /** What one round of drafting meets: whether a prompt could be built and fits, the call, whether
    * the checkpoint was stored, and the day on which the day's spending was read. */
  datatype Round = Round(prompt: Status, assembled: Status, capacity: bool, directive: Status, validated: Status,
                         call: Call, stored: Status, clock: int)

  datatype Result = Content(text: seq<byte>) | Error(e: Status) | Running(accepted: seq<byte>)

  /** Where a draft stands, or how it ended, and what is left of the account. */
  datatype Progress = Progress(result: Result, account: Account)

  /** What unwrapping an outer fence leaves of a draft, None when it is refused; by default all of it. */
  type Normal = map<seq<byte>, Option<seq<byte>>>

  function Normalized(normal: Normal, text: seq<byte>): Option<seq<byte>> {
    if text in normal then normal[text] else Some(text)
  }

  predicate Refused(r: Round) {
    r.prompt != OK || (r.assembled == OK && (!r.capacity || r.directive != OK))
  }

  function Refusal(r: Round): Status
    requires Refused(r)
  {
    if r.prompt != OK then r.prompt else if !r.capacity then CONTEXT else r.directive
  }

  /** What generation comes to in one round; the model is asked only once all is prepared. */
  function Answered(s: State, r: Round): Answer {
    if r.assembled != OK then Answer(r.assembled, [], 0, s)
    else if r.validated != OK then Answer(r.validated, [], 0, s)
    else Inferred(s, r.call)
  }

  function Accepted(complete: seq<byte>, chunk: seq<byte>): seq<byte> {
    if chunk == [] then complete else Joined(complete, chunk)
  }

  predicate OverSession(a: Account) {
    a.sessionTokens > 0 && a.spent + a.gtAux >= a.sessionTokens
  }

  /** While usage needs recovery the day counts as spent. */
  predicate OverDay(s: State) {
    s.dailyTokens > 0 && (s.recoveryRequired || s.usage.today.tokens.charged >= s.dailyTokens)
  }

  /** Reading the day's spending rolls the projection to the day; it is read only when it matters. */
  function Weighed(a: Account, clock: int): Account {
    if OverSession(a) || a.engine.dailyTokens <= 0 || a.engine.recoveryRequired then a
    else a.(engine := a.engine.(usage := Rolled(a.engine.usage, clock)))
  }

  predicate OverBudget(a: Account, clock: int) {
    OverSession(a) || OverDay(Weighed(a, clock).engine)
  }

  function Charged(a: Account, tout: int): Account {
    a.(gtAux := a.gtAux + (if tout > 0 then tout else 0))
  }

  function Closed(normal: Normal, accepted: seq<byte>): Result {
    if accepted == [] then Error(PROTOCOL)
    else
      match Normalized(normal, accepted)
      case None => Error(PROTOCOL)
      case Some(text) => if text == [] then Error(PROTOCOL) else Content(text)
  }

  /** A generation cut off by the output limit leaves the draft to be continued, within the budgets
    * and once there is something to continue. */
  function CutOff(a: Account, accepted: seq<byte>, clock: int): Progress {
    if accepted == [] then Progress(Error(LIMIT), a)
    else Progress(if OverBudget(a, clock) then Error(LIMIT) else Running(accepted), Weighed(a, clock))
  }

  function Left(a: Account, answer: Answer): Account {
    a.(engine := answer.engine)
  }

  /** What a round makes of its answer, once the engine has recorded it. */
  function Concluded(normal: Normal, a: Account, accepted: seq<byte>, answer: Answer, r: Round): Progress {
    var now := Charged(a, answer.tout);
    if answer.e != OK && answer.e != LIMIT then Progress(Error(answer.e), a)
    else if answer.chunk != [] && r.stored != OK then Progress(Error(r.stored), now)
    else if answer.e == LIMIT then CutOff(now, accepted, r.clock)
    else Progress(Closed(normal, accepted), now)
  }

  function Taken(normal: Normal, a: Account, complete: seq<byte>, answer: Answer, r: Round): Progress {
    Concluded(normal, a, Accepted(complete, answer.chunk), answer, r)
  }

  function Advance(normal: Normal, a: Account, complete: seq<byte>, r: Round): Progress {
    if Refused(r) then Progress(Error(Refusal(r)), a)
    else
      var answer := Answered(a.engine, r);
      Taken(normal, Left(a, answer), complete, answer, r)
  }

  function Drafted(normal: Normal, a: Account, complete: seq<byte>, rounds: seq<Round>): Progress
    decreases |rounds|
  {
    if rounds == [] then Progress(Running(complete), a)
    else
      var p := Advance(normal, a, complete, rounds[0]);
      if p.result.Running? then Drafted(normal, p.account, p.result.accepted, rounds[1..]) else p
  }

  lemma AcceptedExtends(complete: seq<byte>, chunk: seq<byte>)
    ensures complete <= Accepted(complete, chunk)
    ensures chunk != [] ==> Accepted(complete, chunk) != []
  {
    if complete == [] && chunk != [] {
      assert Joined(complete, chunk) == chunk;
    }
  }

  lemma ConcludedKeeps(normal: Normal, a: Account, accepted: seq<byte>, answer: Answer, r: Round)
    ensures var result := Concluded(normal, a, accepted, answer, r).result;
            result.Running? ==> result.accepted == accepted != []
  {
  }

  /** What was accepted is never taken back. */
  lemma {:induction false} AcceptedIsKept(normal: Normal, a: Account, complete: seq<byte>, rounds: seq<Round>)
    ensures var p := Drafted(normal, a, complete, rounds); p.result.Running? ==> complete <= p.result.accepted
    decreases |rounds|
  {
    if rounds != [] {
      var p := Advance(normal, a, complete, rounds[0]);
      if p.result.Running? {
        var answer := Answered(a.engine, rounds[0]);
        ConcludedKeeps(normal, Left(a, answer), Accepted(complete, answer.chunk), answer, rounds[0]);
        AcceptedExtends(complete, answer.chunk);
        AcceptedIsKept(normal, p.account, p.result.accepted, rounds[1..]);
      }
    }
  }

  // ---------------------------------------------------------------- the loop

  class Turn {
    var phase: Phase
    var account: Account

    constructor (account: Account)
      ensures phase == ACTION && this.account == account
    {
      phase := ACTION;
      this.account := account;
    }

    method Overlap(a: seq<byte>, b: seq<byte>) returns (n: nat)
      ensures n == Longest(a, b, Limit(a, b))
    {
      n := if |a| < |b| then |a| else |b|;
      if n > OVERLAP_MAX { n := OVERLAP_MAX; }
      while n > 0 && a[|a| - n..] != b[..n]
        invariant n <= Limit(a, b) && Longest(a, b, n) == Longest(a, b, Limit(a, b))
      {
        n := n - 1;
      }
    }

    /** Reserve, ask, settle; only the engine's share of the account changes. */
    method Infer(c: Call) returns (answer: Answer)
      modifies this`account
      ensures answer == Inferred(old(account.engine), c)
      ensures account == Left(old(account), answer)
    {
      var (begun, e) := Began(account.engine, c);
      account := account.(engine := begun);
      if e != OK { return Answer(Carried(e), [], 0, begun); }
      var reply := Given(c.reply);
      var (ended, saved) := Finished(begun, c);
      account := account.(engine := ended);
      return Answer(Carried(if saved == OK then reply.e else saved), reply.chunk, reply.output, ended);
    }

    /** One generation in the draft phase; the phase is put back on every way out. */
    method Generate(r: Round) returns (refused: bool, e: Status, answer: Answer)
      modifies this
      ensures phase == old(phase) && refused == Refused(r)
      ensures refused ==> e == Refusal(r) && account == old(account)
      ensures !refused ==> answer == Answered(old(account.engine), r) && e == answer.e
      ensures account == if refused then old(account) else Left(old(account), answer)
    {
      var saved := phase;
      answer := Answer(r.assembled, [], 0, account.engine);
      if r.prompt != OK { return true, r.prompt, answer; }
      phase := DRAFT;
      if r.assembled == OK {
        if !r.capacity {
          phase := saved;
          return true, CONTEXT, answer;
        }
        if r.directive != OK {
          phase := saved;
          return true, r.directive, answer;
        }
        answer := answer.(e := r.validated);
        if r.validated == OK {
          answer := Infer(r.call);
        }
      }
      phase := saved;
      refused, e := false, answer.e;
    }

    /** One round: generate, charge, join, and decide whether to go on. */
    method Continue(normal: Normal, complete: seq<byte>, r: Round) returns (result: Result)
      modifies this
      ensures phase == old(phase) && Progress(result, account) == Advance(normal, old(account), complete, r)
    {
      var refused, e, answer := Generate(r);
      if refused { return Error(e); }
      result := Take(normal, complete, answer, r);
    }

    method Take(normal: Normal, complete: seq<byte>, answer: Answer, r: Round) returns (result: Result)
      modifies this`account
      ensures Progress(result, account) == Taken(normal, old(account), complete, answer, r)
    {
      var accepted := Join(complete, answer.chunk);
      result := Conclude(normal, accepted, answer, r);
    }

    method Conclude(normal: Normal, accepted: seq<byte>, answer: Answer, r: Round) returns (result: Result)
      modifies this`account
      ensures Progress(result, account) == Concluded(normal, old(account), accepted, answer, r)
    {
      if answer.e != OK && answer.e != LIMIT { return Error(answer.e); }
      if answer.tout > 0 { account := account.(gtAux := account.gtAux + answer.tout); }
      if answer.chunk != [] && r.stored != OK { return Error(r.stored); }
      if answer.e != LIMIT { return Closed(normal, accepted); }
      result := Pause(accepted, r.clock);
    }

    method Join(complete: seq<byte>, chunk: seq<byte>) returns (accepted: seq<byte>)
      ensures accepted == Accepted(complete, chunk)
    {
      accepted := complete;
      if chunk != [] {
        var n := Overlap(complete, chunk);
        accepted := complete + chunk[n..];
      }
    }

    method Pause(accepted: seq<byte>, clock: int) returns (result: Result)
      modifies this`account
      ensures Progress(result, account) == CutOff(old(account), accepted, clock)
    {
      if accepted == [] { return Error(LIMIT); }
      var over := OverBudget(account, clock);
      account := Weighed(account, clock);
      return if over then Error(LIMIT) else Running(accepted);
    }

    /** Draft until the model is done, fails, or the rounds at hand run out. */
    method FileContent(normal: Normal, rounds: seq<Round>) returns (result: Result)
      modifies this
      ensures phase == old(phase) && Progress(result, account) == Drafted(normal, old(account), [], rounds)
    {
      var complete: seq<byte> := [];
      assert rounds[0..] == rounds;
      for i := 0 to |rounds|
        invariant phase == old(phase)
        invariant Drafted(normal, account, complete, rounds[i..]) == Drafted(normal, old(account), [], rounds)
      {
        assert rounds[i..][0] == rounds[i] && rounds[i..][1..] == rounds[i + 1..];
        result := Continue(normal, complete, rounds[i]);
        if !result.Running? { return; }
        complete := result.accepted;
      }
      return Running(complete);
    }
  }
}
