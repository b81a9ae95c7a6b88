/** Live admission: reserve before an inference call, settle after it, and append each
  * step to the journal before publishing it. `Begun`, `Ended` and `Recorded` are the state
  * transitions; `Engine` performs them in place. */
module Operations {
  import opened Statuses
  import opened Consumption
  import OperationReplay
  import Utf8

  const MODEL_MAX: nat := 128
  const KIND_MAX: nat := 32
  const REQUEST_MAX: nat := 128

  /** What a journal append did. A failed append may still have reached the disk. */
  datatype Append = Stored | Lost(error: Status) | Unacknowledged(error: Status)
  {
    predicate WellFormed() { Stored? || error != OK }
  }

  datatype State = State(usage: Usage, recoveryRequired: bool, journal: seq<Row>, dailyTokens: int)

  /** Whom an operation is for; the request id may be absent. */
  datatype Request = Request(model: Text, kind: Text, id: Option<Text>)

  datatype Op = Op(id: string, identity: Identity, day: int, reserved: int)

  predicate ValidText(text: Text, max: nat) {
    0 < |text| <= max && Utf8.Valid(text)
  }

  predicate ValidRequest(q: Request, reserve: int) {
    && ValidText(q.model, MODEL_MAX) && ValidText(q.kind, KIND_MAX)
    && (q.id.Some? ==> ValidText(q.id.value, REQUEST_MAX))
    && reserve >= 0
  }

  /** An absent request id is recorded as an empty one. */
  function IdentityOf(q: Request): Identity {
    Identity(q.model, q.kind, if q.id.Some? then q.id.value else [])
  }

  function ReserveRow(op: Op): Row {
    Row(op.id, op.identity, op.day, op.reserved, 0, 0, true, false, OK)
  }

  function SettleRow(op: Op, input: int, output: int, known: bool, outcome: Status): Row {
    Row(op.id, op.identity, op.day, if known then input + output - op.reserved else 0,
        input, output, false, known, outcome)
  }

  /** The row that reserves an operation. */
  predicate Reserves(row: Row, op: Op) {
    && row.id == op.id && row.identity == op.identity && row.day == op.day && row.delta == op.reserved
    && row.reserved && !row.known && row.input == 0 && row.output == 0 && row.outcome == OK
  }

  /** The row that settles it: what is known of its use replaces what was reserved. */
  predicate Settles(row: Row, op: Op, input: int, output: int, known: bool, outcome: Status) {
    && row.id == op.id && row.identity == op.identity && row.day == op.day
    && row.input == input && row.output == output && row.known == known && row.outcome == outcome && !row.reserved
    && (known ==> op.reserved + row.delta == input + output) && (!known ==> row.delta == 0)
  }

  /** One row more. */
  predicate Grew(before: seq<Row>, after: seq<Row>) {
    |after| == |before| + 1 && before == after[..|before|]
  }

  /** Charge a copy, append, and publish the copy only when the append succeeded. */
  function Recorded(s: State, row: Row, reserved: int, append: Append): (State, Status) {
    match Observed(s.usage, row, reserved)
    case None => (s, LIMIT)
    case Some(next) =>
      match append
      case Stored => (s.(journal := s.journal + [row], usage := next), OK)
      case Lost(e) => (s.(recoveryRequired := true), e)
      case Unacknowledged(e) => (s.(journal := s.journal + [row], recoveryRequired := true), e)
  }

  function Begun(s: State, id: string, q: Request, reserve: int, clock: int, append: Append): (State, Status) {
    if ValidRequest(q, reserve) then Reserving(s, id, IdentityOf(q), reserve, clock, append) else (s, INVALID)
  }

  /** What a valid request comes to. */
  function Reserving(s: State, id: string, identity: Identity, reserve: int, clock: int, append: Append)
    : (State, Status)
  {
    var now := s.(usage := Rolled(s.usage, clock));
    if now.recoveryRequired then (now, IO)
    else if now.usage.lifetime.calls.all >= OPERATIONS_MAX then (now, LIMIT)
    else if now.dailyTokens > 0 && reserve > now.dailyTokens - now.usage.today.tokens.charged then (now, LIMIT)
    else Recorded(now, ReserveRow(Op(id, identity, now.usage.utcDay, reserve)), reserve, append)
  }

  function Ended(s: State, op: Op, input: int, output: int, known: bool, outcome: Status, clock: int, append: Append)
    : (State, Status)
  {
    if s.recoveryRequired then (s, IO)
    else
      var now := s.(usage := Rolled(s.usage, clock));
      var (next, e) := Recorded(now, SettleRow(op, input, output, known, outcome), op.reserved, append);
      (if e == OK then next else next.(recoveryRequired := true), e)
  }

  /** Replay the journal; a journal that is refused leaves the projection as it was. */
  function Loaded(s: State, clock: int): State {
    match Replay(s.journal, clock)
    case Success(r) => s.(usage := r.usage, recoveryRequired := false)
    case Failure(_) => s.(recoveryRequired := true)
  }

  /** A fresh process: nothing but the journal survives. */
  function Restarted(s: State, clock: int): State {
    Loaded(s.(usage := Fresh(0).usage), clock)
  }

  // ---------------------------------------------------------------- in place

  class Operation {
    var op: Op
    var active: bool

    constructor ()
      ensures !active
    {
      op := Op("", Identity([], [], []), 0, 0);
      active := false;
    }
  }

  class Engine {
    var usage: Usage
    var recoveryRequired: bool
    var journal: seq<Row>
    const dailyTokens: int

    function Snapshot(): State
      reads this
    {
      State(usage, recoveryRequired, journal, dailyTokens)
    }

    ghost predicate Valid()
      reads this
    {
      usage.lifetime.InRange() && usage.today.InRange()
    }

    constructor (dailyTokens: int, day: int)
      ensures Valid() && Snapshot() == State(Fresh(day).usage, false, [], dailyTokens)
    {
      usage := Usage(Blank(day), Blank(day), day);
      recoveryRequired := false;
      journal := [];
      this.dailyTokens := dailyTokens;
    }

    method Roll(day: int)
      requires Valid()
      modifies this`usage
      ensures Valid() && usage == Rolled(old(usage), day)
    {
      if day > usage.utcDay {
        usage := usage.(utcDay := day, today := Blank(day));
      }
    }

    method Record(row: Row, reserved: int, append: Append) returns (e: Status)
      requires Valid() && append.WellFormed()
      modifies this
      ensures Valid() && (Snapshot(), e) == Recorded(old(Snapshot()), row, reserved, append)
      ensures e == OK ==> Grew(old(journal), journal) && journal[|old(journal)|] == row
    {
      var ok, next := Observe(usage, row, reserved);
      if !ok { return LIMIT; }
      match append
      case Stored =>
        journal := journal + [row];
        usage := next;
        return OK;
      case Lost(error) =>
        recoveryRequired := true;
        return error;
      case Unacknowledged(error) =>
        journal := journal + [row];
        recoveryRequired := true;
        return error;
    }

    /** The operation becomes active exactly when its reservation was stored. */
    method Begin(operation: Operation, id: string, q: Request, reserve: int, clock: int, append: Append)
      returns (e: Status)
      requires Valid() && append.WellFormed()
      modifies this, operation
      ensures Valid()
      ensures (Snapshot(), e) == Begun(old(Snapshot()), id, q, reserve, clock, append)
      ensures ValidRequest(q, reserve) ==>
                && operation.op == Op(id, IdentityOf(q), usage.utcDay, reserve)
                && operation.active == (e == OK)
      ensures !ValidRequest(q, reserve) ==>
                operation.op == old(operation.op) && operation.active == old(operation.active)
      ensures e == OK ==> Grew(old(journal), journal) && Reserves(journal[|old(journal)|], operation.op)
    {
      if !ValidRequest(q, reserve) { return INVALID; }
      Roll(clock);
      operation.op := Op(id, IdentityOf(q), usage.utcDay, reserve);
      if recoveryRequired {
        e := IO;
      } else if usage.lifetime.calls.all >= OPERATIONS_MAX {
        e := LIMIT;
      } else if dailyTokens > 0 && reserve > dailyTokens - usage.today.tokens.charged {
        e := LIMIT;
      } else {
        e := Record(ReserveRow(operation.op), reserve, append);
      }
      operation.active := e == OK;
    }

    /** An operation settles at most once: it is inactive afterwards whatever happened. */
    method End(operation: Operation, input: int, output: int, known: bool, outcome: Status, clock: int, append: Append)
      returns (e: Status)
      requires Valid() && append.WellFormed()
      modifies this, operation
      ensures Valid() && operation.op == old(operation.op)
      ensures if !old(operation.active) || input < 0 || output < 0
              then e == INVALID && Snapshot() == old(Snapshot()) && operation.active == old(operation.active)
              else && !operation.active
                   && (Snapshot(), e)
                      == Ended(old(Snapshot()), old(operation.op), input, output, known, outcome, clock, append)
      ensures e == OK ==>
                && Grew(old(journal), journal)
                && Settles(journal[|old(journal)|], operation.op, input, output, known, outcome)
    {
      if !operation.active || input < 0 || output < 0 { return INVALID; }
      operation.active := false;
      e := Settle(operation.op, input, output, known, outcome, clock, append);
    }

    /** Once a settlement has failed in any way, nothing more is admitted before a restart. */
    method Settle(op: Op, input: int, output: int, known: bool, outcome: Status, clock: int, append: Append)
      returns (e: Status)
      requires Valid() && append.WellFormed() && input >= 0 && output >= 0
      modifies this
      ensures Valid()
      ensures (Snapshot(), e) == Ended(old(Snapshot()), op, input, output, known, outcome, clock, append)
      ensures e == OK ==>
                Grew(old(journal), journal) && Settles(journal[|old(journal)|], op, input, output, known, outcome)
    {
      if recoveryRequired { return IO; }
      Roll(clock);
      e := Record(SettleRow(op, input, output, known, outcome), op.reserved, append);
      if e != OK {
        recoveryRequired := true;
      }
    }

    /** Replay the journal into the projection, whatever it held before. */
    method Load(clock: int) returns (e: Status)
      modifies this
      ensures Snapshot() == Loaded(old(Snapshot()), clock)
      ensures e == OK <==> !recoveryRequired
      ensures e == OK || old(Valid()) ==> Valid()
    {
      var replayed;
      e, replayed := OperationReplay.Visit(journal, clock);
      if e == OK {
        usage := replayed;
      }
      recoveryRequired := e != OK;
    }
  }
}
