/** What a draft's text is made of, round by round, and how a round ends. */
module DraftText {
  import opened Statuses
  import opened Utf8
  import opened Operations
  import opened Draft

  // ---------------------------------------------------------------- what the model said

  /** The prompt is ready and the reservation was stored. */
  predicate Reaches(s: State, r: Round) {
    r.assembled == OK && r.validated == OK && Began(s, r.call).1 == OK
  }

  /** The provider was asked. */
  predicate Asks(s: State, r: Round) {
    Reaches(s, r) && !r.call.reply.cancelled && !r.call.reply.late
  }

  predicate Settled(s: State, c: Call) {
    Finished(Began(s, c).0, c).1 == OK
  }

  /** The provider's text and tokens come back exactly when it was asked; and they count as complete, or
    * as cut off, only when it said so and the settlement was stored. */
  lemma AskedIff(s: State, r: Round)
    ensures var answer, reply := Answered(s, r), r.call.reply;
            && answer.chunk == (if Asks(s, r) then reply.chunk else [])
            && answer.tout == (if Asks(s, r) then reply.output else 0)
            && (Reaches(s, r) ==>
                  && (answer.e == OK <==> Asks(s, r) && reply.e == OK && Settled(s, r.call))
                  && (Settled(s, r.call) && reply.cancelled ==> answer.e == CANCELLED)
                  && (Settled(s, r.call) && !reply.cancelled && reply.late ==> answer.e == TIMEOUT)
                  && (Settled(s, r.call) && Asks(s, r) && reply.e == LIMIT ==> answer.e == LIMIT))
            && (answer.e == OK ==> Reaches(s, r))
  {
  }

  // ---------------------------------------------------------------- one round

  /** All of both texts in the shortest way, or the text unchanged when nothing was said. */
  ghost predicate Grew(text: seq<byte>, chunk: seq<byte>, next: seq<byte>) {
    && (chunk == [] ==> next == text)
    && (chunk != [] ==> Merges(next, text, chunk) && forall z :: Merges(z, text, chunk) ==> |next| <= |z|)
  }

  lemma AcceptedGrew(text: seq<byte>, chunk: seq<byte>)
    ensures Grew(text, chunk, Accepted(text, chunk))
  {
    JoinIsShortestMerge(text, chunk);
  }

  /** What is charged on the day of the clock; before the clock was read, on the day of the projection. */
  function ChargedOn(s: State, clock: int): int {
    if clock > s.usage.utcDay then 0 else s.usage.today.tokens.charged
  }

  /** The session has no token left, or the day has none, or what the day has is not known. */
  predicate Exhausted(a: Account, clock: int) {
    || (a.sessionTokens > 0 && a.spent + a.gtAux >= a.sessionTokens)
    || (a.engine.dailyTokens > 0
        && (a.engine.recoveryRequired || ChargedOn(a.engine, clock) >= a.engine.dailyTokens))
  }

  lemma ExhaustedIff(a: Account, clock: int)
    ensures OverBudget(a, clock) <==> Exhausted(a, clock)
  {
  }

  /** A round that ends well, or goes on: the model was done, or was cut off with budget left; what it said
    * was stored; and there is some text. */
  ghost predicate Comes(normal: Normal, a: Account, text: seq<byte>, r: Round, next: seq<byte>,
                       result: Draft.Result) {
    var answer := Answered(a.engine, r);
    var stored := answer.chunk != [] ==> r.stored == OK;
    var now := Charged(Left(a, answer), answer.tout);
    && (result.Content?
        <==> !Refused(r) && answer.e == OK && stored && next != []
             && Normalized(normal, next).Some? && Normalized(normal, next).value != [])
    && (result.Content? ==> Normalized(normal, next) == Some(result.text))
    && (result.Running? <==> !Refused(r) && answer.e == LIMIT && stored && next != [] && !Exhausted(now, r.clock))
    && (result.Running? ==> result.accepted == next)
    && (result.Error? ==> result.e != OK)
    && (r.prompt != OK ==> result == Error(r.prompt))
    && (r.prompt == OK && r.assembled == OK && !r.capacity ==> result == Error(CONTEXT))
    && (r.prompt == OK && r.assembled == OK && r.capacity && r.directive != OK ==> result == Error(r.directive))
  }

  lemma RoundComes(normal: Normal, a: Account, text: seq<byte>, r: Round, next: seq<byte>)
    requires next == Accepted(text, Answered(a.engine, r).chunk)
    ensures Comes(normal, a, text, r, next, Advance(normal, a, text, r).result)
    ensures Grew(text, Answered(a.engine, r).chunk, next)
  {
    AcceptedGrew(text, Answered(a.engine, r).chunk);
    var answer := Answered(a.engine, r);
    ExhaustedIff(Charged(Left(a, answer), answer.tout), r.clock);
  }

  // ---------------------------------------------------------------- the whole draft

  /** What one round makes of the account and the text. */
  ghost predicate Goes(normal: Normal, a: Account, text: seq<byte>, r: Round, b: Account, next: seq<byte>) {
    Grew(text, Answered(a.engine, r).chunk, next) && b == Advance(normal, a, text, r).account
  }

  predicate IsCut(a: Account, r: Round) { Answered(a.engine, r).e == LIMIT }

  /** The accounts and the texts that so many rounds pass through; all but the last were cut off. */
  ghost predicate Follows(normal: Normal, accounts: seq<Account>, texts: seq<seq<byte>>, rounds: seq<Round>) {
    && |accounts| == |texts| && 1 <= |texts| <= |rounds| + 1
    && forall i {:trigger rounds[i]} :: 0 <= i < |texts| - 1 ==>
         && Goes(normal, accounts[i], texts[i], rounds[i], accounts[i + 1], texts[i + 1])
         && (i < |texts| - 2 ==> IsCut(accounts[i], rounds[i]))
  }

  lemma FollowsMore(normal: Normal, accounts: seq<Account>, texts: seq<seq<byte>>, rounds: seq<Round>, a: Account,
                    text: seq<byte>)
    requires rounds != [] && Follows(normal, accounts, texts, rounds[1..])
    requires Goes(normal, a, text, rounds[0], accounts[0], texts[0])
    requires |texts| > 1 ==> IsCut(a, rounds[0])
    ensures Follows(normal, [a] + accounts, [text] + texts, rounds)
  {
    var xs, ys := [a] + accounts, [text] + texts;
    forall i | 0 <= i < |texts|
      ensures Goes(normal, xs[i], ys[i], rounds[i], xs[i + 1], ys[i + 1])
              && (i < |texts| - 1 ==> IsCut(xs[i], rounds[i]))
    {
      if i > 0 { assert rounds[1..][i - 1] == rounds[i]; }
    }
  }

  /** How it ended, or stands, after these rounds. */
  ghost predicate Ends(normal: Normal, accounts: seq<Account>, texts: seq<seq<byte>>, rounds: seq<Round>, p: Progress) {
    && Follows(normal, accounts, texts, rounds)
    && var n := |texts| - 1;
       && p.account == accounts[n] && (p.result.Running? ==> n == |rounds|) && (rounds != [] ==> n > 0)
       && (n > 0 ==> Comes(normal, accounts[n - 1], texts[n - 1], rounds[n - 1], texts[n], p.result))
       && (rounds == [] ==> p.result == Running(texts[0]))
  }

  lemma EndsNow(normal: Normal, a: Account, text: seq<byte>, rounds: seq<Round>, next: seq<byte>, p: Progress)
    requires rounds != [] && p == Advance(normal, a, text, rounds[0]) && !p.result.Running?
    requires Grew(text, Answered(a.engine, rounds[0]).chunk, next) && Comes(normal, a, text, rounds[0], next, p.result)
    ensures Ends(normal, [a, p.account], [text, next], rounds, p)
  {
  }

  lemma EndsLater(normal: Normal, a: Account, text: seq<byte>, rounds: seq<Round>, accounts: seq<Account>,
                  texts: seq<seq<byte>>, first: Progress, p: Progress)
    requires rounds != [] && first == Advance(normal, a, text, rounds[0]) && first.result.Running?
    requires Ends(normal, accounts, texts, rounds[1..], p) && accounts[0] == first.account
    requires Grew(text, Answered(a.engine, rounds[0]).chunk, texts[0])
    requires Comes(normal, a, text, rounds[0], texts[0], first.result)
    requires rounds[1..] == [] ==> p.result == first.result
    ensures Ends(normal, [a] + accounts, [text] + texts, rounds, p)
  {
    FollowsMore(normal, accounts, texts, rounds, a, text);
    var n := |texts| - 1;
    if n > 0 { assert rounds[1..][n - 1] == rounds[n]; }
  }

  /** Every draft, over every sequence of rounds: each round before the last was cut off, and grew the text by
    * the shortest merge with what the model said; the last round ends it, or leaves it to go on, by what the
    * model said then, what was stored, and the budgets. */
  lemma {:induction false} DraftEnds(normal: Normal, a: Account, text: seq<byte>, rounds: seq<Round>)
    returns (accounts: seq<Account>, texts: seq<seq<byte>>)
    ensures Ends(normal, accounts, texts, rounds, Drafted(normal, a, text, rounds))
    ensures accounts[0] == a && texts[0] == text
    decreases |rounds|
  {
    if rounds == [] {
      accounts, texts := [a], [text];
    } else {
      var p := Advance(normal, a, text, rounds[0]);
      var next := Accepted(text, Answered(a.engine, rounds[0]).chunk);
      RoundComes(normal, a, text, rounds[0], next);
      if p.result.Running? {
        var later, more := DraftEnds(normal, p.account, next, rounds[1..]);
        EndsLater(normal, a, text, rounds, later, more, p, Drafted(normal, p.account, next, rounds[1..]));
        accounts, texts := [a] + later, [text] + more;
      } else {
        EndsNow(normal, a, text, rounds, next, p);
        accounts, texts := [a, p.account], [text, next];
      }
    }
  }
}
