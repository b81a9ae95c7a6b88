/** Forwarding a job's output to an editor: contiguous output events are sent as they come,
  * and whatever they lacked is sent from the final answer once they prove to be its prefix. */
module AcpStream {
  import opened Statuses
  import opened Utf8
  import opened StreamJob

  const BATCH: nat := 16
  const SLICE: nat := 16384
  const TICK_BYTES: nat := 65536

  // ---------------------------------------------------------------- what events say

  /** The text of the output events, in order. */
  function Outputs(events: seq<Event>): seq<byte> {
    if events == [] then []
    else
      var last := events[|events| - 1];
      Outputs(events[..|events| - 1]) + (if last.kind == Output then last.text else [])
  }

  function OutputText(raws: seq<Raw>): seq<byte> {
    if raws == [] then []
    else
      var last := raws[|raws| - 1];
      OutputText(raws[..|raws| - 1]) + (if last.kind == Output then last.text else [])
  }

  predicate Whole(events: seq<Event>) {
    forall e :: e in events && e.kind == Output ==> !e.truncated
  }

  /** The text sent is the output of the first `fed` events, none of it truncated. */
  ghost predicate Reflects(history: seq<Event>, fed: nat, sent: seq<byte>) {
    fed <= |history| && sent == Outputs(history[..fed]) && Whole(history[..fed])
  }

  lemma ReflectsNext(history: seq<Event>, fed: nat, sent: seq<byte>)
    requires Reflects(history, fed, sent) && fed < |history|
    ensures history[fed].kind != Output ==> Reflects(history, fed + 1, sent)
    ensures history[fed].kind == Output && !history[fed].truncated ==>
              Reflects(history, fed + 1, sent + history[fed].text)
  {
    var longer := history[..fed + 1];
    assert longer[..fed] == history[..fed];
    assert longer == history[..fed] + [history[fed]];
    if history[fed].kind != Output {
      assert Outputs(longer) == Outputs(history[..fed]) + [];
    }
  }

  lemma ReflectsLonger(history: seq<Event>, more: seq<Event>, fed: nat, sent: seq<byte>)
    requires Reflects(history, fed, sent) && history <= more
    ensures Reflects(more, fed, sent)
  {
    assert more[..fed] == history[..fed];
  }

  /** Stored events that are whole say what was emitted. */
  lemma {:induction false} WholeIsEmitted(history: seq<Event>, raws: seq<Raw>)
    requires |history| == |raws| && Whole(history)
    requires forall c :: 0 <= c < |history| ==> history[c].kind == raws[c].kind
    requires forall c :: 0 <= c < |history| && !history[c].truncated ==> history[c].text == raws[c].text
    ensures Outputs(history) == OutputText(raws)
  {
    if history != [] {
      var n := |history| - 1;
      WholeIsEmitted(history[..n], raws[..n]);
      assert history[n] in history;
    }
  }

  lemma {:induction false} OutputTextGrows(raws: seq<Raw>, n: nat)
    requires n <= |raws|
    ensures OutputText(raws[..n]) <= OutputText(raws)
    decreases |raws| - n
  {
    if n < |raws| {
      OutputTextGrows(raws, n + 1);
      assert raws[..n + 1][..n] == raws[..n];
    } else {
      assert raws[..n] == raws;
    }
  }

  // ---------------------------------------------------------------- the session

  /** What the worker or the server's loop does next. */
  datatype Turn =
    | Produce(raw: Raw, outOfMemory: bool)
    | Complete(answer: seq<byte>)
    | Tick(waited: bool, drainError: Status)

  predicate Benign(schedule: seq<Turn>) {
    forall i :: 0 <= i < |schedule| && schedule[i].Tick? ==> schedule[i].drainError == OK
  }

  /** No drain of the events before the reply fails as the prefix check would. */
  predicate NeverParse(schedule: seq<Turn>) {
    forall i :: 0 <= i < |schedule| && schedule[i].Tick? ==> schedule[i].drainError != PARSE
  }

  /** The worker has memory and says no more than an event holds. */
  predicate IsShort(turn: Turn) {
    turn.Produce? ==> !turn.outOfMemory && |turn.raw.text| <= 4096
  }

  predicate AllShort(schedule: seq<Turn>) {
    forall i :: 0 <= i < |schedule| ==> IsShort(schedule[i])
  }

  /** The events produced from the i-th turn on. */
  function Produces(schedule: seq<Turn>, i: nat): nat
    requires i <= |schedule|
    decreases |schedule| - i
  {
    if i == |schedule| then 0 else Produces(schedule, i + 1) + (if schedule[i].Produce? then 1 else 0)
  }

  /** A slice of at most 16384 bytes; no longer one ends between characters. */
  ghost predicate IsSlice(answer: seq<byte>, offset: nat, n: nat) {
    && n <= 16384 && offset + n <= |answer|
    && (|answer| - offset <= 16384 ==> offset + n == |answer|)
    && (n > 0 ==> Boundary(answer, offset + n))
    && forall p :: offset + n < p <= offset + 16384 ==> !Boundary(answer, p)
  }

  class Session {
    const job: Job
    /** Whether the outgoing queue takes the i-th update; beyond the end it always does. */
    const wire: seq<bool>
    var wireUsed: nat
    var cursor: nat
    var outputBytes: nat
    /** The incremental SHA-256 state, modelled by what it has absorbed. */
    var hashed: seq<byte>
    var holdOutput: bool
    var terminal: bool
    var finalText: seq<byte>
    var finalOffset: nat
    var failure: Status
    var replied: bool
    /** The text of every chunk queued for this prompt. */
    var sent: seq<byte>
    ghost var fed: nat
    /** What had been sent when the terminal packet was taken in. */
    ghost var streamed: seq<byte>

    /** The forwarder's state, as long as the server has not failed. */
    ghost predicate Inv()
      reads this, job, job.events
    {
      && job.Valid()
      && (failure == OK ==>
            && cursor <= job.next && hashed == sent && outputBytes == |sent|
            && (!holdOutput ==> fed == cursor)
            && (!terminal ==> !replied && Reflects(job.history, fed, sent))
            && (terminal ==> job.done && finalText == job.answer && finalOffset <= |finalText|
                             && sent == finalText[..finalOffset])
            && (replied ==> sent == job.answer))
    }

    constructor (job: Job, wire: seq<bool>)
      requires job.Valid() && job.history == []
      ensures Inv() && this.job == job && failure == OK && !replied && this.wire == wire
    {
      this.job, this.wire := job, wire;
      wireUsed, cursor, outputBytes, hashed := 0, 0, 0, [];
      holdOutput, terminal, finalText, finalOffset := false, false, [], 0;
      failure, replied, sent := OK, false, [];
      fed := 0;
    }

    /** Queue one chunk; count and hash it only when it was queued. */
    method Chunk(text: seq<byte>)
      modifies this`wireUsed, this`failure, this`outputBytes, this`hashed, this`sent
      ensures failure == OK ==>
                && old(failure) == OK && sent == old(sent) + text
                && hashed == old(hashed) + text && outputBytes == old(outputBytes) + |text|
      ensures old(failure) == OK && wire == [] ==> failure == OK
      ensures failure in {old(failure), LIMIT}
    {
      if failure == OK {
        failure := if wireUsed < |wire| && !wire[wireUsed] then LIMIT else OK;
        wireUsed := wireUsed + 1;
        if failure == OK {
          sent := sent + text;
          hashed := hashed + text;
          outputBytes := outputBytes + |text|;
        }
      }
    }

    /** The size of the next slice: all that is left, or as much of 16384 bytes as ends between characters. */
    method SliceEnd(answer: seq<byte>, offset: nat) returns (n: nat)
      requires offset < |answer|
      ensures IsSlice(answer, offset, n)
      ensures Utf8.Valid(answer) ==> n > 0
    {
      n := |answer| - offset;
      if n > SLICE { n := SLICE; }
      ghost var whole := n;
      assert whole < SLICE ==> offset + whole == |answer|;
      while n > 0 && offset + n < |answer| && Continuation(answer[offset + n])
        invariant n <= whole <= |answer| - offset
        invariant n < whole ==> whole == SLICE && offset + whole < |answer|
        invariant forall p :: offset + n < p <= offset + whole && p < |answer| ==> Continuation(answer[p])
      {
        n := n - 1;
      }
      if Utf8.Valid(answer) && n == 0 {
        ShortRuns(answer, offset + 1);
        assert false;
      }
    }

    /** Send what the events lacked, a bounded amount a tick; reply once all is sent. */
    method Terminal()
      requires Inv() && failure == OK && terminal && !replied
      modifies this`wireUsed, this`failure, this`outputBytes, this`hashed, this`sent, this`finalOffset, this`replied
      ensures Inv()
      ensures wire == [] && Utf8.Valid(job.answer) ==> failure == OK
      ensures Utf8.Valid(job.answer) ==> failure in {OK, LIMIT}
      ensures failure == OK ==> replied || finalOffset > old(finalOffset)
      ensures failure == OK ==> (replied <==> finalOffset == |finalText|)
      ensures failure == OK && !replied ==> finalOffset >= old(finalOffset) + 65536
      ensures finalOffset < old(finalOffset) + 65536 + 16384
    {
      var length := |finalText|;
      var count := 0;
      while failure == OK && finalOffset < length && count < TICK_BYTES
        invariant !replied && count >= 0 && length == |finalText| && finalText == job.answer
        invariant old(finalOffset) <= finalOffset
        invariant failure == OK ==>
                    && finalOffset <= length && sent == finalText[..finalOffset]
                    && hashed == sent && outputBytes == |sent|
        invariant count == 0 ==> finalOffset == old(finalOffset)
        invariant finalOffset == old(finalOffset) + count && count < 65536 + 16384
        invariant count > 0 && failure == OK ==> finalOffset > old(finalOffset)
        invariant wire == [] && Utf8.Valid(job.answer) ==> failure == OK
        invariant Utf8.Valid(job.answer) ==> failure in {OK, LIMIT}
        decreases if failure == OK then length - finalOffset + 1 else 0
      {
        var n := SliceEnd(finalText, finalOffset);
        if n == 0 {
          failure := PARSE;
          return;
        }
        var part := finalText[finalOffset..finalOffset + n];
        assert finalText[..finalOffset] + part == finalText[..finalOffset + n];
        Chunk(part);
        finalOffset := finalOffset + n;
        count := count + n;
      }
      if failure == OK && finalOffset == length {
        assert finalText[..length] == finalText;
        assert sent == job.answer;
        replied := true;
      }
    }

    /** The forwarder's state before the terminal packet. */
    ghost predicate Streaming()
      reads this, job, job.events
    {
      && job.Valid() && !terminal
      && (failure == OK ==>
            && cursor <= job.next && hashed == sent && outputBytes == |sent|
            && (!holdOutput ==> fed == cursor)
            && !replied && Reflects(job.history, fed, sent))
    }

    /** One event: an output event is sent, unless it was truncated, which holds output for good. */
    method FeedOne(event: Event, position: nat)
      requires Streaming() && !holdOutput && position < job.next && event == job.history[position]
      requires failure == OK ==> position == cursor
      modifies this`wireUsed, this`failure, this`outputBytes, this`hashed, this`sent, this`cursor, this`holdOutput,
               this`fed
      ensures Streaming() && cursor == position + 1
      ensures holdOutput == (event.kind == Output && event.truncated)
      ensures wire == [] && old(failure) == OK ==> failure == OK
      ensures failure in {old(failure), LIMIT}
    {
      if failure == OK { ReflectsNext(job.history, fed, sent); }
      cursor := position + 1;
      if event.kind == Output {
        if event.truncated {
          holdOutput := true;
          return;
        }
        if event.text != [] {
          Chunk(event.text);
        } else {
          assert sent + event.text == sent;
        }
      }
      fed := cursor;
    }

    /** Forward at most BATCH events, stopping for good at a truncated output event. */
    method Feed(packet: Packet) returns (consumed: nat)
      requires Streaming() && failure == OK
      requires !holdOutput ==> packet.first == cursor && packet.events == job.history[cursor..]
      modifies this`wireUsed, this`failure, this`outputBytes, this`hashed, this`sent, this`cursor, this`holdOutput,
               this`fed
      ensures Streaming() && consumed <= |packet.events| && consumed <= 16
      ensures failure == OK ==> consumed == 16 || consumed == |packet.events| || holdOutput
      ensures wire == [] ==> failure == OK
      ensures failure in {OK, LIMIT}
      ensures holdOutput || consumed == |packet.events| || cursor > old(cursor)
      ensures !old(holdOutput) ==> cursor >= old(cursor)
      ensures !old(holdOutput) && Whole(job.history) ==> !holdOutput
      ensures !holdOutput && consumed == |packet.events| ==> cursor == job.next
    {
      consumed := 0;
      while consumed < |packet.events| && consumed < BATCH && !holdOutput
        invariant Streaming() && consumed <= |packet.events| && consumed <= 16
        invariant !holdOutput ==> packet.first <= job.next && packet.events == job.history[packet.first..]
        invariant !holdOutput ==> packet.first == old(cursor) && cursor == packet.first + consumed
        invariant (wire == [] ==> failure == OK) && failure in {OK, LIMIT}
        invariant !old(holdOutput) && Whole(job.history) ==> !holdOutput
        invariant !old(holdOutput) ==> cursor >= old(cursor)
        decreases |packet.events| - consumed, if holdOutput then 0 else 1
      {
        FeedOne(packet.events[consumed], packet.first + consumed);
        if holdOutput { break; }
        consumed := consumed + 1;
      }
    }

    /** The terminal packet: its answer must begin with exactly what was sent. */
    method Accept(answer: seq<byte>, drainError: Status)
      requires Streaming() && failure == OK && job.done && answer == job.answer
      modifies this`wireUsed, this`failure, this`outputBytes, this`hashed, this`sent, this`terminal, this`finalText,
               this`finalOffset, this`replied, this`streamed
      ensures Inv()
      ensures !(old(sent) <= answer) ==> failure == PARSE && sent == old(sent)
      ensures old(sent) <= answer && drainError == OK && wire == [] && Utf8.Valid(answer) ==> failure == OK
      ensures old(sent) <= answer && Utf8.Valid(answer) ==> failure in {OK, LIMIT, drainError}
      ensures failure == OK ==> terminal && streamed == old(sent)
    {
      if |answer| < outputBytes || answer[..outputBytes] != hashed {
        failure := PARSE;
        return;
      }
      failure := drainError;
      streamed := sent;
      terminal := true;
      finalText := answer;
      finalOffset := outputBytes;
      if failure == OK { Terminal(); }
    }

    /** Nothing was held back, no output event was truncated, and the ring has lost nothing beyond the
      * cursor. */
    ghost predicate Smooth()
      reads this, job
    {
      !holdOutput && Whole(job.history) && job.next - cursor <= 256
    }

    /** What is still to be forwarded: events, then answer bytes. */
    ghost function Remaining(): int
      reads this, job
    {
      if terminal then |job.answer| - finalOffset else |job.answer| + 1 + job.next - cursor
    }

    /** One poll of a session with a job. */
    method PollSession(waited: bool, drainError: Status)
      requires Inv() && failure == OK && !replied && (waited ==> job.finished)
      modifies this, job`done
      ensures Inv()
      ensures waited && failure == OK ==> replied || Remaining() < old(Remaining())
      ensures wire == [] && drainError == OK
              && (job.finished ==> Utf8.Valid(job.answer) && OutputText(job.emitted) <= job.answer)
              ==> failure == OK
      ensures (job.finished ==> Utf8.Valid(job.answer) && OutputText(job.emitted) <= job.answer)
              ==> failure in {OK, LIMIT, drainError}
      ensures failure == OK && old(terminal) ==> terminal && streamed == old(streamed)
      ensures failure == OK ==> cursor >= old(cursor)
      ensures failure == OK && !old(terminal) && old(Smooth()) ==>
                !holdOutput && (terminal ==> job.finished && streamed == OutputText(job.emitted))
    {
      if terminal {
        Terminal();
        return;
      }
      var e, packet := job.Poll(cursor, waited);
      // The cursor never runs ahead of the job, so the poll is never refused.
      assert e == OK;
      TakeIn(packet, drainError);
    }

    /** Forward what a packet holds, and its answer once nothing is left to forward. */
    method TakeIn(packet: Packet, drainError: Status)
      requires Streaming() && failure == OK
      requires packet.gap == (cursor < First(job.next)) && packet.nextCursor == job.next
      requires packet.first == Start(cursor, job.next) && packet.events == job.history[packet.first..]
      requires packet.done == job.done && (packet.done ==> packet.answer == job.answer)
      modifies this
      ensures Inv()
      ensures failure == OK && packet.done ==> terminal || cursor > old(cursor)
      ensures failure == OK && terminal ==> packet.done
      ensures wire == [] && drainError == OK
              && (job.finished ==> Utf8.Valid(job.answer) && OutputText(job.emitted) <= job.answer)
              ==> failure == OK
      ensures (job.finished ==> Utf8.Valid(job.answer) && OutputText(job.emitted) <= job.answer)
              ==> failure in {OK, LIMIT, drainError}
      ensures failure == OK ==> cursor >= old(cursor)
      ensures failure == OK && old(Smooth()) ==> !holdOutput && (terminal ==> streamed == OutputText(job.emitted))
    {
      var ready := Advance(packet);
      if ready && packet.done {
        SentIsEmitted();
        if !holdOutput && cursor == job.next { AllIsSent(); }
        Accept(packet.answer, drainError);
      }
    }

    /** Take in one packet; ready when nothing that it holds is left to forward. */
    method Advance(packet: Packet) returns (ready: bool)
      requires Streaming() && failure == OK
      requires packet.gap == (cursor < First(job.next)) && packet.nextCursor == job.next
      requires packet.first == Start(cursor, job.next) && packet.events == job.history[packet.first..]
      modifies this`wireUsed, this`failure, this`outputBytes, this`hashed, this`sent, this`cursor, this`holdOutput,
               this`fed
      ensures Streaming()
      ensures wire == [] ==> failure == OK
      ensures failure in {OK, LIMIT}
      ensures ready ==> failure == OK
      ensures failure == OK ==> ready || cursor > old(cursor)
      ensures failure == OK ==> cursor >= old(cursor)
      ensures old(Smooth()) && failure == OK ==> !holdOutput && (ready ==> cursor == job.next)
    {
      if packet.gap { holdOutput := true; }
      var consumed := Feed(packet);
      if holdOutput { cursor := packet.nextCursor; }
      ready := failure == OK && (holdOutput || consumed == |packet.events|);
    }

    /** Once every event was fed, what was sent is all that the worker emitted. */
    lemma AllIsSent()
      requires Streaming() && failure == OK && !holdOutput && cursor == job.next
      ensures sent == OutputText(job.emitted)
    {
      assert job.history[..fed] == job.history && job.emitted[..fed] == job.emitted;
      WholeIsEmitted(job.history, job.emitted);
    }

    lemma SentIsEmitted()
      requires Streaming() && failure == OK
      ensures sent <= OutputText(job.emitted)
    {
      WholeIsEmitted(job.history[..fed], job.emitted[..fed]);
      OutputTextGrows(job.emitted, fed);
    }

    /** Any run of a worker and the server's ticks: a prompt that got its reply was sent exactly
      * the final answer, whatever was overrun, truncated, batched, sliced or refused; and while
      * outputs are a prefix of the answer the check against it never fails, however the wire does. */
    method Run(schedule: seq<Turn>)
      requires Inv()
      modifies this, job, job.events
      ensures Inv()
      ensures failure == OK && replied ==> sent == job.answer && job.finished
      ensures wire == [] && old(failure) == OK && Benign(schedule)
              && (job.finished ==> Utf8.Valid(job.answer) && OutputText(job.emitted) <= job.answer)
              ==> failure == OK
      ensures old(failure) != PARSE && NeverParse(schedule)
              && (job.finished ==> Utf8.Valid(job.answer) && OutputText(job.emitted) <= job.answer)
              ==> failure != PARSE
      ensures old(Streams(Produces(schedule, 0))) && AllShort(schedule) && failure == OK && terminal ==>
                job.finished && streamed == OutputText(job.emitted)
    {
      for i := 0 to |schedule|
        invariant Inv() && (failure == OK && replied ==> job.finished)
        invariant old(failure) != PARSE && NeverParse(schedule)
                  && (job.finished ==> Utf8.Valid(job.answer) && OutputText(job.emitted) <= job.answer)
                  ==> failure != PARSE
        invariant wire == [] && old(failure) == OK && Benign(schedule)
                  && (job.finished ==> Utf8.Valid(job.answer) && OutputText(job.emitted) <= job.answer)
                  ==> failure == OK
        invariant old(Streams(Produces(schedule, 0))) && AllShort(schedule) ==> Streams(Produces(schedule, i))
      {
        Play(schedule[i], Produces(schedule, i + 1));
      }
    }

    /** Whatever was emitted is being streamed, or has been before the terminal packet; the ring holds so
      * many events more without losing one. */
    ghost predicate Streams(left: nat)
      reads this, job
    {
      failure == OK ==>
        && Whole(job.history)
        && (if terminal then job.finished && streamed == OutputText(job.emitted)
            else !holdOutput && job.next + left <= cursor + 256)
    }

    /** One turn of the worker or of the server's loop. */
    method Play(turn: Turn, ghost left: nat)
      requires Inv() && (failure == OK && replied ==> job.finished)
      modifies this, job, job.events
      ensures Inv() && (failure == OK && replied ==> job.finished)
      ensures old(job.finished) ==> job.finished && job.answer == old(job.answer) && job.emitted == old(job.emitted)
      ensures old(job.emitted) <= job.emitted
      ensures wire == [] && old(failure) == OK && (turn.Tick? ==> turn.drainError == OK)
              && (job.finished ==> Utf8.Valid(job.answer) && OutputText(job.emitted) <= job.answer)
              ==> failure == OK
      ensures old(failure) != PARSE && (turn.Tick? ==> turn.drainError != PARSE)
              && (job.finished ==> Utf8.Valid(job.answer) && OutputText(job.emitted) <= job.answer)
              ==> failure != PARSE
      ensures old(Streams(if turn.Produce? then left + 1 else left)) && IsShort(turn) ==> Streams(left)
    {
      match turn
      case Produce(raw, outOfMemory) =>
        if !job.finished { Produced(raw, outOfMemory); }
      case Complete(answer) =>
        if !job.finished { job.Finish(answer); }
      case Tick(waited, drainError) =>
        if failure == OK && !replied { PollSession(waited && job.finished, drainError); }
    }

    method Produced(raw: Raw, outOfMemory: bool)
      requires Inv() && !job.finished
      modifies job`next, job`history, job`emitted, job.events
      ensures Inv() && job.next == old(job.next) + 1 && old(job.emitted) <= job.emitted
      ensures !outOfMemory && |raw.text| <= 4096 && old(Whole(job.history)) ==> Whole(job.history)
    {
      ghost var before := job.history;
      job.Emit(raw, outOfMemory);
      if failure == OK && !terminal {
        ReflectsLonger(before, job.history, fed, sent);
      }
    }

    /** Once the turn has ended with an answer that begins with its output, polling comes to
      * the reply, and by then exactly the answer has been sent. */
    method Drain()
      requires Inv() && failure == OK && wire == [] && job.finished
      requires Utf8.Valid(job.answer) && OutputText(job.emitted) <= job.answer
      modifies this, job`done
      ensures failure == OK && replied && sent == job.answer
    {
      while !replied
        invariant Inv() && failure == OK
        decreases !replied, Remaining()
      {
        PollSession(true, OK);
      }
    }
  }
}
