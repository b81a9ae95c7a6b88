/** A background job's bounded event buffer: 256 ring slots addressed by ever-growing
  * cursors, so that what was overwritten shows up as an explicit gap. */
module StreamJob {
  import opened Statuses
  import opened Utf8

  const EVENTS: nat := 256
  const EVENT_BYTES: nat := 4096

  datatype Kind = Output | Other(code: int)

  datatype Raw = Raw(kind: Kind, text: seq<byte>)

  datatype Event = Event(kind: Kind, text: seq<byte>, truncated: bool)

  datatype Packet = Packet(gap: bool, first: nat, events: seq<Event>, nextCursor: nat, done: bool, answer: seq<byte>)

  /** Back off to a character boundary, at most to 0. */
  function Cut(text: seq<byte>, n: nat): (r: nat)
    requires n < |text|
    ensures r <= n && (r > 0 ==> !Continuation(text[r]))
  {
    if n > 0 && Continuation(text[n]) then Cut(text, n - 1) else n
  }

  /** What is stored of an event; without memory its text is lost. */
  function Stored(raw: Raw, outOfMemory: bool): Event {
    var n := if |raw.text| > EVENT_BYTES then Cut(raw.text, EVENT_BYTES) else |raw.text|;
    if outOfMemory then Event(raw.kind, [], true)
    else Event(raw.kind, raw.text[..n], n != |raw.text|)
  }

  /** An event that is not marked truncated is stored whole; and text stays text. */
  lemma StoredIsFaithful(raw: Raw, outOfMemory: bool)
    ensures !Stored(raw, outOfMemory).truncated ==> Stored(raw, outOfMemory).text == raw.text
    ensures |Stored(raw, outOfMemory).text| <= EVENT_BYTES
    ensures Utf8.Valid(raw.text) ==> Utf8.Valid(Stored(raw, outOfMemory).text)
  {
    var n := if |raw.text| > EVENT_BYTES then Cut(raw.text, EVENT_BYTES) else |raw.text|;
    assert raw.text[..|raw.text|] == raw.text;
    if Utf8.Valid(raw.text) {
      SplitValid(raw.text, n);
    }
  }

  /** The first n bytes are what is kept of a text: all of it when it fits, else as much as fits up to
    * a character boundary. */
  ghost predicate IsClip(text: seq<byte>, n: nat) {
    && n <= |text| && n <= 4096
    && (|text| <= 4096 ==> n == |text|)
    && (|text| > 4096 ==> (n == 0 || Boundary(text, n)) && forall m :: n < m <= 4096 ==> !Boundary(text, m))
  }

  lemma {:induction false} CutIsLargest(text: seq<byte>, n: nat)
    requires n < |text|
    ensures var r := Cut(text, n); (r == 0 || Boundary(text, r)) && forall m :: r < m <= n ==> !Boundary(text, m)
  {
    if n > 0 && Continuation(text[n]) { CutIsLargest(text, n - 1); }
  }

  /** Valid text loses at most three bytes below the limit. */
  lemma ClipLosesLittle(text: seq<byte>, n: nat)
    requires Utf8.Valid(text) && IsClip(text, n)
    ensures n == |text| || n + 3 >= 4096
  {
    if |text| > 4096 {
      ShortRuns(text, 4093);
      var j :| 4093 <= j <= 4096 && !Continuation(text[j]);
      assert Boundary(text, j);
    }
  }

  /** What is stored of an event: with memory its text, clipped, and whether anything is missing. */
  ghost predicate Keeps(raw: Raw, outOfMemory: bool, event: Event) {
    && event.kind == raw.kind
    && (outOfMemory ==> event.text == [] && event.truncated)
    && (!outOfMemory ==>
          && IsClip(raw.text, |event.text|) && event.text == raw.text[..|event.text|]
          && (event.truncated <==> event.text != raw.text))
  }

  lemma StoredKeeps(raw: Raw, outOfMemory: bool)
    ensures Keeps(raw, outOfMemory, Stored(raw, outOfMemory))
  {
    if |raw.text| > EVENT_BYTES {
      CutIsLargest(raw.text, EVENT_BYTES);
    } else {
      assert raw.text[..|raw.text|] == raw.text;
    }
  }

  function First(next: nat): nat {
    if next > EVENTS then next - EVENTS else 0
  }

  function Start(cursor: nat, next: nat): nat {
    if cursor < First(next) then First(next) else cursor
  }

  /** Cursors less than a ring apart use different slots. */
  lemma SlotsDiffer(c: nat, d: nat)
    requires c < d < c + EVENTS
    ensures c % EVENTS != d % EVENTS
  {
  }

  class Job {
    const events: array<Event>
    var next: nat
    var done: bool
    /** Set by the worker when the turn has ended; no event follows. */
    var finished: bool
    var answer: seq<byte>
    /** Every event ever emitted, as stored, and as it was. */
    ghost var history: seq<Event>
    ghost var emitted: seq<Raw>

    ghost predicate Valid()
      reads this, events
    {
      && events.Length == EVENTS && next == |history| == |emitted|
      && (done ==> finished)
      && (forall c :: First(next) <= c < next ==> events[c % EVENTS] == history[c])
      && (forall c :: 0 <= c < next && !history[c].truncated ==> history[c].text == emitted[c].text)
      && (forall c :: 0 <= c < next ==> history[c].kind == emitted[c].kind)
    }

    constructor ()
      ensures Valid() && fresh(events) && history == [] && !finished && !done
    {
      events := new Event[EVENTS](_ => Event(Other(0), [], false));
      next, done, finished, answer := 0, false, false, [];
      history, emitted := [], [];
    }

    method Clip(text: seq<byte>) returns (n: nat)
      ensures n == if |text| > EVENT_BYTES then Cut(text, EVENT_BYTES) else |text|
    {
      n := |text|;
      if n > EVENT_BYTES {
        n := EVENT_BYTES;
        while n > 0 && Continuation(text[n])
          invariant 0 <= n <= EVENT_BYTES
          invariant Cut(text, n) == Cut(text, EVENT_BYTES)
        {
          n := n - 1;
        }
      }
    }

    /** The worker's callback: clip, then overwrite the oldest slot. */
    method Emit(raw: Raw, outOfMemory: bool)
      requires Valid() && !finished
      modifies this`next, this`history, this`emitted, events
      ensures Valid()
      ensures history == old(history) + [Stored(raw, outOfMemory)] && emitted == old(emitted) + [raw]
      ensures Keeps(raw, outOfMemory, history[|history| - 1])
    {
      var n := Clip(raw.text);
      StoredIsFaithful(raw, outOfMemory);
      StoredKeeps(raw, outOfMemory);
      var event := Event(raw.kind, if outOfMemory then [] else raw.text[..n], |raw.text| != n || outOfMemory);
      assert event == Stored(raw, outOfMemory);
      forall c | First(next + 1) <= c < next ensures c % EVENTS != next % EVENTS {
        SlotsDiffer(c, next);
      }
      events[next % EVENTS] := event;
      next := next + 1;
      history := history + [event];
      emitted := emitted + [raw];
    }

    method Finish(answer: seq<byte>)
      requires Valid() && !finished
      modifies this`finished, this`answer
      ensures Valid() && finished && this.answer == answer
    {
      finished := true;
      this.answer := answer;
    }

    method Collect(from: nat) returns (taken: seq<Event>)
      requires Valid() && First(next) <= from <= next
      ensures taken == history[from..]
    {
      taken := [];
      var cursor := from;
      while cursor < next
        invariant from <= cursor <= next
        invariant taken == history[from..cursor]
      {
        assert events[cursor % EVENTS] == history[cursor];
        taken := taken + [events[cursor % EVENTS]];
        cursor := cursor + 1;
      }
      assert history[from..next] == history[from..];
    }

    /** Everything retained from the cursor on, the gap made explicit. `waited` says whether
      * the non-blocking wait at the start of the poll found the turn ended. */
    method Poll(cursor: nat, waited: bool) returns (e: Status, packet: Packet)
      requires Valid() && (waited ==> finished)
      modifies this`done
      ensures Valid() && done == (old(done) || waited)
      ensures e == if cursor > next then INVALID else OK
      ensures e == OK ==>
                packet == Packet(cursor < First(next), Start(cursor, next), history[Start(cursor, next)..], next,
                                 done, if done then answer else [])
      ensures e == OK ==>
                && (packet.gap <==> next - cursor > 256)
                && packet.events == history[if next - cursor > 256 then next - 256 else cursor..]
    {
      if !done { done := waited; }
      var first := if next > EVENTS then next - EVENTS else 0;
      if cursor > next { return INVALID, Packet(false, 0, [], 0, false, []); }
      var from := if cursor < first then first else cursor;
      var taken := Collect(from);
      return OK, Packet(cursor < first, from, taken, next, done, if done then answer else []);
    }
  }
}
