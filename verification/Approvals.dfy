/** Approval records, the successor relation that decides which histories are legal,
  * and the guarded append that keeps the durable log legal. */
module Approvals {
  import opened Statuses

  const INT64_MAX: int := 0x7FFF_FFFF_FFFF_FFFF

  datatype ApprovalStatus = PENDING | APPROVED | DENIED | CONSUMED | INVALIDATED | INTERRUPTED

  /** The reviewed fields. Hashes are modelled by what they hash. */
  datatype Bound = Bound(turn: string, toolRef: string, command: string, argumentsHash: string,
                         packageHash: string, snapshot: string, workspace: string,
                         arguments: string, profile: int)

  datatype Approval = Approval(sequence: nat, id: string, bound: Bound, status: ApprovalStatus, sessionWide: bool)
  {
    predicate Live() { status == PENDING || status == APPROVED }
  }

  /** Declaration order: everything from DENIED on is terminal. */
  predicate AtLeastDenied(s: ApprovalStatus) {
    s == ApprovalStatus.DENIED || s == CONSUMED || s == INVALIDATED || s == INTERRUPTED
  }

  predicate Follows(before: Option<Approval>, next: Approval) {
    match before
    case None => next.sequence == 1 && next.status == PENDING && !next.sessionWide
    case Some(b) =>
      if next.sequence != b.sequence + 1 then false
      else if b.id != next.id then AtLeastDenied(b.status) && next.status == PENDING && !next.sessionWide
      else if b.bound != next.bound then false
      else if b.status == PENDING then
        && (next.status == APPROVED || next.status == ApprovalStatus.DENIED || next.status == INTERRUPTED)
        && (!next.sessionWide || next.status == APPROVED)
      else if b.status == APPROVED then
        && next.sessionWide == b.sessionWide
        && (next.status == CONSUMED || next.status == INVALIDATED || next.status == INTERRUPTED)
      else false
  }

  function Last(log: seq<Approval>): Option<Approval> {
    if log == [] then None else Some(log[|log| - 1])
  }

  ghost predicate Legal(log: seq<Approval>) {
    log != [] ==> Legal(log[..|log| - 1]) && Follows(Last(log[..|log| - 1]), log[|log| - 1])
  }

  // ---------------------------------------------------------------- the store

  /** An append is stored; or refused before anything is written; or fails with an I/O
    * error, in which case the record may or may not be on disk. */
  datatype Append = Stored | Refused(error: Status) | Failed(durable: bool)
  {
    predicate WellFormed() { Refused? ==> error != OK && error != IO }
  }

  datatype Session = Session(current: Option<Approval>, log: seq<Approval>, recoveryRequired: bool)

  function Saved(s: Session, proposed: Approval, append: Append): (Session, Status) {
    if s.recoveryRequired then (s, IO)
    else if s.current.Some? && s.current.value.sequence >= INT64_MAX then (s, LIMIT)
    else
      var next := proposed.(sequence := if s.current.Some? then s.current.value.sequence + 1 else 1);
      if !Follows(s.current, next) then (s, INVALID)
      else
        match append
        case Stored => (s.(current := Some(next), log := s.log + [next]), OK)
        case Refused(e) => (s, e)
        case Failed(durable) =>
          (s.(log := if durable then s.log + [next] else s.log, recoveryRequired := true), IO)
  }

  function Transitioned(s: Session, status: ApprovalStatus, wide: bool, append: Append): (Session, Status) {
    match s.current
    case None => (s, NOT_FOUND)
    case Some(a) => Saved(s, a.(status := status, sessionWide := wide), append)
  }

  /** Reopening replays the log; what was live is interrupted, never resumed. */
  function Loaded(log: seq<Approval>, append: Append): (Session, Status) {
    if !Accepts(log) then (Session(None, log, true), PARSE)
    else
      var s := Session(Last(log), log, false);
      if s.current.Some? && s.current.value.Live()
      then Transitioned(s, INTERRUPTED, s.current.value.sessionWide, append)
      else (s, OK)
  }

  /** Legality as the replay loop decides it. */
  predicate Accepts(log: seq<Approval>) {
    forall i {:trigger Before(log, i)} :: 0 <= i < |log| ==> Follows(Before(log, i), log[i])
  }

  function Before(log: seq<Approval>, i: int): Option<Approval>
    requires 0 <= i <= |log|
  {
    if i == 0 then None else Some(log[i - 1])
  }

  class Store {
    var current: Option<Approval>
    var log: seq<Approval>
    var recoveryRequired: bool

    function Snapshot(): Session
      reads this
    {
      Session(current, log, recoveryRequired)
    }

    constructor (log: seq<Approval>)
      ensures Snapshot() == Session(None, log, false)
    {
      current, this.log, recoveryRequired := None, log, false;
    }

    method Save(proposed: Approval, append: Append) returns (e: Status)
      requires append.WellFormed()
      modifies this
      ensures (Snapshot(), e) == Saved(old(Snapshot()), proposed, append)
    {
      if recoveryRequired { return IO; }
      if current.Some? && current.value.sequence >= INT64_MAX { return LIMIT; }
      var next := proposed.(sequence := if current.Some? then current.value.sequence + 1 else 1);
      if !Follows(current, next) { return INVALID; }
      match append
      case Stored =>
        log := log + [next];
        current := Some(next);
        return OK;
      case Refused(error) =>
        return error;
      case Failed(durable) =>
        if durable { log := log + [next]; }
        recoveryRequired := true;
        return IO;
    }

    method Transition(status: ApprovalStatus, wide: bool, append: Append) returns (e: Status)
      requires append.WellFormed()
      modifies this
      ensures (Snapshot(), e) == Transitioned(old(Snapshot()), status, wide, append)
    {
      if current.None? { return NOT_FOUND; }
      var next := current.value.(status := status, sessionWide := wide);
      e := Save(next, append);
    }

    /** Replays record by record, keeping only the latest one. */
    method Load(append: Append) returns (e: Status)
      requires Snapshot() == Session(None, log, false) && append.WellFormed()
      modifies this
      ensures (Snapshot(), e) == Loaded(old(log), append)
    {
      var i := 0;
      while i < |log|
        invariant 0 <= i <= |log| && log == old(log) && !recoveryRequired
        invariant current == Last(log[..i])
        invariant forall k {:trigger Before(log, k)} :: 0 <= k < i ==> Follows(Before(log, k), log[k])
      {
        if !Follows(current, log[i]) {
          assert current == Before(log, i);
          current, recoveryRequired := None, true;
          return PARSE;
        }
        current := Some(log[i]);
        i := i + 1;
      }
      assert log[..|log|] == log;
      if current.Some? && current.value.Live() {
        e := Transition(INTERRUPTED, current.value.sessionWide, append);
      } else {
        e := OK;
      }
    }
  }

  /** The replay loop accepts exactly the legal histories. */
  lemma {:induction false} AcceptsIsLegal(log: seq<Approval>)
    ensures Accepts(log) <==> Legal(log)
  {
    if log != [] {
      var before, n := log[..|log| - 1], |log| - 1;
      AcceptsIsLegal(before);
      assert Before(log, n) == Last(before);
      assert forall i {:trigger Before(log, i)} {:trigger Before(before, i)} ::
          0 <= i < n ==> Before(log, i) == Before(before, i) && before[i] == log[i];
      if Accepts(log) {
        assert Follows(Before(log, n), log[n]);
        forall i | 0 <= i < n ensures Follows(Before(before, i), before[i]) {
          assert Follows(Before(log, i), log[i]);
        }
      }
      if Legal(log) {
        forall i | 0 <= i < |log| ensures Follows(Before(log, i), log[i]) {
          if i < n {
            assert Follows(Before(before, i), before[i]);
          }
        }
      }
    }
  }

  // ---------------------------------------------------------------- blocks

  /** One approval's life: pending, then perhaps a decision, then perhaps its use.
    * Only an approval may be session wide, and its use keeps that. */
  predicate IsBlock(b: seq<Approval>) {
    && 1 <= |b| <= 3
    && b[0].status == PENDING && !b[0].sessionWide
    && (forall i :: 0 <= i < |b| ==> b[i].id == b[0].id && b[i].bound == b[0].bound)
    && (|b| == 2 ==>
          && (b[1].status == APPROVED || b[1].status == ApprovalStatus.DENIED || b[1].status == INTERRUPTED)
          && (b[1].sessionWide ==> b[1].status == APPROVED))
    && (|b| == 3 ==>
          && b[1].status == APPROVED && b[2].sessionWide == b[1].sessionWide
          && (b[2].status == CONSUMED || b[2].status == INVALIDATED || b[2].status == INTERRUPTED))
  }

  predicate Closed(b: seq<Approval>) {
    IsBlock(b) && !b[|b| - 1].Live()
  }

  function Concat(blocks: seq<seq<Approval>>): seq<Approval> {
    if blocks == [] then [] else Concat(blocks[..|blocks| - 1]) + blocks[|blocks| - 1]
  }

  /** A block may follow closed blocks, the last of them of another id. */
  predicate CanFollow(front: seq<seq<Approval>>, b: seq<Approval>) {
    && IsBlock(b)
    && (front != [] ==> Closed(front[|front| - 1]) && front[|front| - 1][0].id != b[0].id)
  }

  /** Consecutive blocks, each but the last closed, neighbours of different ids. */
  ghost predicate IsBlocks(blocks: seq<seq<Approval>>) {
    blocks != [] ==> IsBlocks(blocks[..|blocks| - 1]) && CanFollow(blocks[..|blocks| - 1], blocks[|blocks| - 1])
  }

  predicate Numbered(log: seq<Approval>) {
    forall i :: 0 <= i < |log| ==> log[i].sequence == i + 1
  }

  lemma {:induction false} LegalIsNumbered(log: seq<Approval>)
    requires Legal(log)
    ensures Numbered(log)
  {
    if log != [] {
      LegalIsNumbered(log[..|log| - 1]);
    }
  }

  lemma ExtendBlock(b: seq<Approval>, next: Approval)
    requires IsBlock(b) && Follows(Some(b[|b| - 1]), next)
    ensures b[0].id == next.id ==> IsBlock(b + [next])
    ensures b[0].id != next.id ==> Closed(b) && IsBlock([next])
  {
  }

  lemma AddBlock(front: seq<seq<Approval>>, b: seq<Approval>)
    ensures Concat(front + [b]) == Concat(front) + b
    ensures IsBlocks(front + [b]) <==> IsBlocks(front) && CanFollow(front, b)
  {
    assert (front + [b])[..|front|] == front;
  }

  /** One more record extends the last block or opens the next one. */
  lemma SplitStep(front: seq<seq<Approval>>, b: seq<Approval>, next: Approval, before: seq<Approval>)
    returns (front': seq<seq<Approval>>, b': seq<Approval>)
    requires IsBlocks(front) && CanFollow(front, b) && Follows(Some(b[|b| - 1]), next)
    requires before == Concat(front) + b
    ensures IsBlocks(front') && CanFollow(front', b')
    ensures Concat(front') + b' == before + [next]
  {
    ExtendBlock(b, next);
    if b[0].id == next.id {
      front', b' := front, b + [next];
      assert Concat(front) + (b + [next]) == before + [next];
    } else {
      AddBlock(front, b);
      front', b' := front + [b], [next];
    }
  }

  lemma EndOf<T>(a: seq<T>, b: seq<T>, whole: seq<T>)
    requires a + b == whole && b != []
    ensures whole != [] && b[|b| - 1] == whole[|whole| - 1]
  {
  }

  /** Every legal history splits into blocks; the last one ends the history. */
  lemma {:induction false} LegalSplits(log: seq<Approval>) returns (front: seq<seq<Approval>>, b: seq<Approval>)
    requires Legal(log) && log != []
    ensures Concat(front) + b == log && IsBlocks(front) && CanFollow(front, b)
  {
    var before, next := log[..|log| - 1], log[|log| - 1];
    assert log == before + [next];
    if before == [] {
      front, b := [], [next];
    } else {
      var f, c := LegalSplits(before);
      EndOf(Concat(f), c, before);
      front, b := SplitStep(f, c, next, before);
    }
  }

  /** Every numbered sequence of blocks is legal. */
  lemma {:induction false} BlocksAreLegal(blocks: seq<seq<Approval>>)
    requires IsBlocks(blocks) && Numbered(Concat(blocks))
    ensures Legal(Concat(blocks))
    ensures blocks != [] ==>
              && Concat(blocks) != []
              && Concat(blocks)[|Concat(blocks)| - 1] == blocks[|blocks| - 1][|blocks[|blocks| - 1]| - 1]
  {
    if blocks != [] {
      var front, b := blocks[..|blocks| - 1], blocks[|blocks| - 1];
      var log := Concat(front);
      assert forall i :: 0 <= i < |log| ==> Concat(blocks)[i] == log[i];
      BlocksAreLegal(front);
      AppendBlock(log, b);
    }
  }

  lemma LegalNext(log: seq<Approval>, a: Approval)
    requires Legal(log) && Follows(Last(log), a)
    ensures Legal(log + [a]) && Last(log + [a]) == Some(a)
  {
    assert (log + [a])[..|log|] == log;
  }

  lemma Snoc<T>(a: seq<T>, b: seq<T>, i: nat, before: seq<T>)
    requires 1 <= i <= |b| && before == a + b[..i - 1]
    ensures a + b[..i] == before + [b[i - 1]]
  {
    assert b[..i] == b[..i - 1] + [b[i - 1]];
  }

  lemma BlockFollows(b: seq<Approval>, i: nat)
    requires IsBlock(b) && i + 1 < |b| && b[i + 1].sequence == b[i].sequence + 1
    ensures Follows(Some(b[i]), b[i + 1])
  {
    assert b[i].id == b[0].id && b[i].bound == b[0].bound;
  }

  lemma BlockNumbered(log: seq<Approval>, b: seq<Approval>, i: nat)
    requires Numbered(log + b) && i < |b|
    ensures b[i].sequence == |log| + i + 1
  {
    assert (log + b)[|log| + i] == b[i];
  }

  lemma LastIsNumbered(log: seq<Approval>, b: seq<Approval>)
    requires Numbered(log + b) && log != []
    ensures log[|log| - 1].sequence == |log|
  {
    assert (log + b)[|log| - 1] == log[|log| - 1];
  }

  /** The first i records of a block after a history that it may follow. */
  lemma {:induction false} AppendFirst(log: seq<Approval>, b: seq<Approval>, i: nat)
    requires Legal(log) && IsBlock(b) && Numbered(log + b) && 1 <= i <= |b|
    requires Follows(Last(log), b[0])
    ensures Legal(log + b[..i]) && Last(log + b[..i]) == Some(b[i - 1])
  {
    if i == 1 {
      LegalNext(log, b[0]);
      assert b[..1] == [b[0]];
    } else {
      AppendFirst(log, b, i - 1);
      BlockNumbered(log, b, i - 2);
      BlockNumbered(log, b, i - 1);
      BlockFollows(b, i - 2);
      var before := log + b[..i - 1];
      Snoc(log, b, i, before);
      LegalNext(before, b[i - 1]);
    }
  }

  lemma AppendBlock(log: seq<Approval>, b: seq<Approval>)
    requires Legal(log) && IsBlock(b) && Numbered(log + b)
    requires log != [] ==> !log[|log| - 1].Live() && log[|log| - 1].id != b[0].id
    ensures Legal(log + b)
  {
    BlockNumbered(log, b, 0);
    if log != [] { LastIsNumbered(log, b); }
    AppendFirst(log, b, |b|);
    assert b[..|b|] == b;
  }

  /** A numbered sequence of blocks that makes up the history. */
  ghost predicate MadeOf(log: seq<Approval>, blocks: seq<seq<Approval>>) {
    Numbered(log) && Concat(blocks) == log && IsBlocks(blocks)
  }

  /** A history is legal exactly when it is a numbered run of blocks. */
  lemma LegalIffBlocks(log: seq<Approval>)
    ensures Legal(log) <==> exists blocks :: MadeOf(log, blocks)
  {
    if Legal(log) {
      LegalIsNumbered(log);
      if log == [] {
        assert MadeOf(log, []);
      } else {
        var front, b := LegalSplits(log);
        AddBlock(front, b);
        assert MadeOf(log, front + [b]);
      }
    }
    forall blocks | MadeOf(log, blocks) ensures Legal(log) {
      BlocksAreLegal(blocks);
    }
  }

  lemma Predecessor(before: Option<Approval>, next: Approval)
    requires Follows(before, next) && next.status in {APPROVED, CONSUMED}
    ensures before.Some? && before.value.id == next.id && before.value.bound == next.bound
    ensures before.value.status == if next.status == CONSUMED then APPROVED else PENDING
    ensures next.status == CONSUMED ==> before.value.sessionWide == next.sessionWide
  {
  }

  /** Nothing is consumed that was not approved just before and pending just before that,
    * with every reviewed field unchanged. */
  lemma ConsumedWasReviewed(log: seq<Approval>, n: nat)
    requires Legal(log) && n < |log| && log[n].status == CONSUMED
    ensures n >= 2
    ensures log[n - 1].status == APPROVED && log[n - 2].status == PENDING
    ensures log[n].id == log[n - 1].id == log[n - 2].id
    ensures log[n].bound == log[n - 1].bound == log[n - 2].bound
    ensures log[n].sessionWide == log[n - 1].sessionWide
  {
    AcceptsIsLegal(log);
    assert Follows(Before(log, n), log[n]);
    Predecessor(Before(log, n), log[n]);
    assert Follows(Before(log, n - 1), log[n - 1]);
    Predecessor(Before(log, n - 1), log[n - 1]);
  }

  // ---------------------------------------------------------------- saves and loads keep legality

  /** Memory is the log's end, except that a failed append may have reached the disk. */
  ghost predicate Coherent(s: Session) {
    && Legal(s.log)
    && (!s.recoveryRequired ==> s.current == Last(s.log))
  }

  lemma SaveKeepsCoherent(s: Session, proposed: Approval, append: Append)
    requires Coherent(s) && append.WellFormed()
    ensures var (t, e) := Saved(s, proposed, append);
            && Coherent(t) && s.log <= t.log
            && (e == OK ==> t.current == Last(t.log) && |t.log| == |s.log| + 1)
            && (e != OK ==> t.current == s.current)
  {
    var (t, e) := Saved(s, proposed, append);
    if t.log != s.log {
      assert t.log[..|t.log| - 1] == s.log;
    }
  }

  /** Interrupting a live record is always a legal successor. */
  lemma InterruptSaves(s: Session, append: Append)
    requires Coherent(s) && !s.recoveryRequired && append.WellFormed()
    requires s.current.Some? && s.current.value.Live()
    ensures var (t, e) := Transitioned(s, INTERRUPTED, s.current.value.sessionWide, append);
            && Coherent(t) && s.log <= t.log
            && (e == OK ==> t.current == Last(t.log) && t.current.Some? && !t.current.value.Live())
            && (append == Stored && s.current.value.sequence < INT64_MAX ==> e == OK)
  {
    var a := s.current.value;
    SaveKeepsCoherent(s, a.(status := INTERRUPTED), append);
    if a.status == PENDING {
      PendingIsNarrow(s.log);
    }
  }

  lemma {:induction false} PendingIsNarrow(log: seq<Approval>)
    requires Legal(log) && log != [] && log[|log| - 1].status == PENDING
    ensures !log[|log| - 1].sessionWide
  {
  }

  /** A reopened session is coherent, and a successful one holds no live approval. */
  lemma LoadInterrupts(log: seq<Approval>, append: Append)
    requires append.WellFormed()
    ensures var (s, e) := Loaded(log, append);
            && (Legal(log) ==> Coherent(s) && log <= s.log)
            && (e == OK ==> Legal(log) && s.current == Last(s.log) && (s.current.Some? ==> !s.current.value.Live()))
            && (Legal(log) && append == Stored && |log| < INT64_MAX ==> e == OK)
  {
    AcceptsIsLegal(log);
    if Legal(log) && log != [] && log[|log| - 1].Live() {
      LegalIsNumbered(log);
      InterruptSaves(Session(Last(log), log, false), append);
    }
  }

  /** What reopening answers and leaves on disk: an illegal history is refused as it is; a live record
    * is followed by one that interrupts it, with its id, its reviewed fields and its scope; any other
    * history stays as it is. */
  ghost predicate Reopened(log: seq<Approval>, append: Append, s: Session, e: Status) {
    if !Legal(log) then e == PARSE && s == Session(None, log, true)
    else if log == [] || !log[|log| - 1].Live() then e == OK && s == Session(Last(log), log, false)
    else
      var a := log[|log| - 1];
      var r := Approval(|log| + 1, a.id, a.bound, INTERRUPTED, a.sessionWide);
      if |log| >= INT64_MAX then e == LIMIT && s == Session(Some(a), log, false)
      else
        match append
        case Stored => e == OK && s == Session(Some(r), log + [r], false)
        case Refused(error) => e == error && s == Session(Some(a), log, false)
        case Failed(durable) => e == IO && s == Session(Some(a), if durable then log + [r] else log, true)
  }

  lemma LoadReopens(log: seq<Approval>, append: Append)
    requires append.WellFormed()
    ensures var (s, e) := Loaded(log, append); Reopened(log, append, s, e)
  {
    AcceptsIsLegal(log);
    if Legal(log) && log != [] {
      LegalIsNumbered(log);
      if log[|log| - 1].status == PENDING { PendingIsNarrow(log); }
    }
  }
}
