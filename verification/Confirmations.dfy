/** The approval race: one worker waits on a confirmation slot while hosts decide, turns
  * are cancelled or expire, the workspace changes, appends fail and processes restart.
  * Each action is one critical section of the source. */
module Confirmations {
  import opened Statuses
  import opened Approvals

  /** What a session-wide grant is keyed by; the source hashes these fields. */
  datatype GrantKey = GrantKey(toolRef: string, command: string, packageHash: string, workspace: string, profile: int)

  function KeyOf(b: Bound): GrantKey {
    GrantKey(b.toolRef, b.command, b.packageHash, b.workspace, b.profile)
  }

  datatype Slot = Empty | Open(id: string, decided: bool, allow: bool, wide: bool)

  datatype Worker =
    | Idle
    | Prepared(id: string, bound: Bound)
    | Published(id: string, bound: Bound)
    | Waiting(id: string, bound: Bound, e: Status)
    | Taken(id: string, bound: Bound, e: Status, decided: bool, allow: bool, wide: bool)
    | Closing(id: string, bound: Bound, e: Status, status: ApprovalStatus, wide: bool, seen: string)

  /** How a call to the worker's side ended; `seen` is the workspace its final check read. */
  datatype Return = Return(id: string, bound: Bound, prompted: bool, allowed: bool, seen: string, e: Status)

  datatype World = World(
    session: Session, slot: Slot, worker: Worker,
    cancelled: bool, expired: bool, workspace: string, grants: seq<GrantKey>,
    issued: set<string>, hostApproved: set<string>, storeFailed: bool, answers: seq<Return>)
  {
    function Back(r: Return): World {
      this.(worker := Idle, answers := answers + [r])
    }
  }

  datatype Action =
    | Call(id: string, request: Bound, prepareError: Status, append: Append)
    | Publish
    | Announce(error: Status)
    | Poll
    | Take
    | Judge(snapshotError: Status, selectionValid: bool)
    | Finish(append: Append)
    | Confirm(id: string, allow: bool, wide: bool, append: Append)
    | Cancel
    | Expire
    | Edit(workspace: string)
    | NewTurn
    | Reopen(append: Append)

  /** A save in this state with this append cannot be refused by the medium. */
  predicate SaveWorks(s: Session, append: Append) {
    append == Stored && (s.current.Some? ==> s.current.value.sequence < INT64_MAX)
  }

  // ---------------------------------------------------------------- the worker

  /** Worker: a grant answers at once; otherwise a pending record is saved first. */
  function Called(w: World, id: string, request: Bound, prepareError: Status, append: Append): World {
    if KeyOf(request) in w.grants then w.Back(Return(id, request, false, true, w.workspace, OK))
    else if prepareError != OK then w.Back(Return(id, request, true, false, w.workspace, prepareError))
    else
      var bound := request.(snapshot := w.workspace);
      var (session, e) := Saved(w.session, Approval(0, id, bound, PENDING, false), append);
      var next := w.(session := session, storeFailed := w.storeFailed || !SaveWorks(w.session, append));
      Prompted(next, id, bound, e)
  }

  function Prompted(w: World, id: string, bound: Bound, e: Status): World {
    if e == OK then w.(worker := Prepared(id, bound)) else w.Back(Return(id, bound, true, false, w.workspace, e))
  }

  /** Worker: the check after the wait. A denial is already durable. */
  function Judged(w: World, snapshotError: Status, selectionValid: bool): World
    requires w.worker.Taken?
  {
    var t := w.worker;
    if t.e == OK && t.decided && !w.cancelled && !w.expired then
      if !t.allow then w.Back(Return(t.id, t.bound, true, false, w.workspace, OK))
      else if snapshotError == OK && w.workspace == t.bound.snapshot && selectionValid then
        w.(worker := Closing(t.id, t.bound, OK, CONSUMED, t.wide, w.workspace))
      else w.(worker := Closing(t.id, t.bound, snapshotError, INVALIDATED, t.wide, w.workspace))
    else w.(worker := Closing(t.id, t.bound, t.e, INTERRUPTED, t.wide, w.workspace))
  }

  /** Worker: close a live record. */
  function Closed(s: Session, status: ApprovalStatus, append: Append): (Session, Status) {
    if s.current.Some? && s.current.value.Live() then Transitioned(s, status, s.current.value.sessionWide, append)
    else (s, OK)
  }

  predicate CloseFails(s: Session, append: Append) {
    s.current.Some? && s.current.value.Live() && !SaveWorks(s, append)
  }

  /** Worker: allow only what was stored as consumed. */
  function Finished(w: World, append: Append): World
    requires w.worker.Closing?
  {
    var (session, saved) := Closed(w.session, w.worker.status, append);
    Answered(w.(session := session, storeFailed := w.storeFailed || CloseFails(w.session, append)), saved)
  }

  function Answered(w: World, saved: Status): World
    requires w.worker.Closing?
  {
    var r := Verdict(w.worker, saved);
    w.Back(r).(grants := if r.allowed && w.worker.wide then w.grants + [KeyOf(r.bound)] else w.grants)
  }

  function Verdict(c: Worker, saved: Status): Return
    requires c.Closing?
  {
    var e := if c.e != OK then c.e else saved;
    Return(c.id, c.bound, true, e == OK && c.status == CONSUMED, c.seen, e)
  }

  // ---------------------------------------------------------------- the host

  function StatusOf(allow: bool): ApprovalStatus {
    if allow then APPROVED else ApprovalStatus.DENIED
  }

  function Confirmed(w: World, id: string, allow: bool, wide: bool, append: Append): (World, Status) {
    if w.slot.Empty? || w.slot.id != id then (w, NOT_FOUND)
    else if w.slot.decided then
      (w, if w.slot.allow == allow && w.slot.wide == (allow && wide) then OK else BUSY)
    else
      var (session, e) := Transitioned(w.session, StatusOf(allow), allow && wide, append);
      var next := w.(session := session, storeFailed := w.storeFailed || !SaveWorks(w.session, append));
      (if e == OK then Settled(next, id, allow, allow && wide) else next, e)
  }

  /** The stored decision goes into the slot. */
  function Settled(w: World, id: string, allow: bool, wide: bool): World {
    w.(slot := Open(id, true, allow, wide), hostApproved := if allow then w.hostApproved + {id} else w.hostApproved)
  }

  // ---------------------------------------------------------------- one action

  predicate Possible(w: World, a: Action) {
    match a
    case Call(id, _, _, append) => w.worker.Idle? && id !in w.issued && append.WellFormed()
    case Publish => w.worker.Prepared?
    case Announce(_) => w.worker.Published?
    case Poll =>
      w.worker.Waiting? && w.worker.e == OK && !w.slot.Empty? && !w.slot.decided && !w.cancelled && !w.expired
    case Take => w.worker.Waiting? && !w.slot.Empty? &&
      (w.worker.e != OK || w.slot.decided || w.cancelled || w.expired)
    case Judge(_, _) => w.worker.Taken?
    case Finish(append) => w.worker.Closing? && append.WellFormed()
    case Confirm(_, _, _, append) => append.WellFormed()
    case NewTurn => w.worker.Idle?
    case Reopen(append) => append.WellFormed()
    case _ => true
  }

  function Next(w: World, a: Action): World
    requires Possible(w, a)
  {
    match a
    case Call(id, request, error, append) =>
      Called(w, id, request, error, append).(issued := w.issued + {id})
    case Publish =>
      w.(slot := Open(w.worker.id, false, false, false), worker := Published(w.worker.id, w.worker.bound))
    case Announce(error) => w.(worker := Waiting(w.worker.id, w.worker.bound, error))
    case Poll => if w.session.recoveryRequired then w.(worker := Waiting(w.worker.id, w.worker.bound, IO)) else w
    case Take =>
      w.(worker := Taken(w.worker.id, w.worker.bound, w.worker.e, w.slot.decided, w.slot.allow, w.slot.wide),
         slot := Empty)
    case Judge(error, valid) => Judged(w, error, valid)
    case Finish(append) => Finished(w, append)
    case Confirm(id, allow, wide, append) => Confirmed(w, id, allow, wide, append).0
    case Cancel => w.(cancelled := true)
    case Expire => w.(expired := true)
    case Edit(workspace) => w.(workspace := workspace)
    case NewTurn => w.(cancelled := false, expired := false)
    case Reopen(append) =>
      var (session, e) := Loaded(w.session.log, append);
      w.(session := if e == OK then session else session.(recoveryRequired := true),
         slot := Empty, worker := Idle, grants := [], cancelled := false, expired := false, storeFailed := e != OK)
  }

  function Start(workspace: string): World {
    World(Session(None, [], false), Empty, Idle, false, false, workspace, [], {}, {}, false, [])
  }

  /** Any interleaving; an action that is not enabled does nothing. */
  function Run(actions: seq<Action>, workspace: string): World {
    if actions == [] then Start(workspace)
    else
      var before, last := Run(actions[..|actions| - 1], workspace), actions[|actions| - 1];
      if Possible(before, last) then Next(before, last) else before
  }

  // ---------------------------------------------------------------- the invariant

  /** The record of an approval the worker is handling, before the decision is taken up. */
  ghost predicate Handling(w: World, id: string, bound: Bound) {
    && w.session.current.Some?
    && w.session.current.value.id == id && w.session.current.value.bound == bound
    && id in w.issued
  }

  /** The decision in the slot, or taken from it, is the one on record. */
  ghost predicate Recorded(w: World, id: string, decided: bool, allow: bool, wide: bool) {
    && w.session.current.Some?
    && var a := w.session.current.value;
       if !decided then a.status == PENDING && !a.sessionWide
       else if allow then a.status == APPROVED && a.sessionWide == wide && id in w.hostApproved
       else a.status == ApprovalStatus.DENIED
  }

  ghost predicate WorkerInv(w: World) {
    match w.worker
    case Idle => w.slot.Empty?
    case Prepared(id, bound) =>
      w.slot.Empty? && Handling(w, id, bound) && Recorded(w, id, false, false, false)
    case Published(id, bound) =>
      && w.slot.Open? && w.slot.id == id && Handling(w, id, bound)
      && Recorded(w, id, w.slot.decided, w.slot.allow, w.slot.wide)
    case Waiting(id, bound, e) =>
      && w.slot.Open? && w.slot.id == id && Handling(w, id, bound)
      && Recorded(w, id, w.slot.decided, w.slot.allow, w.slot.wide)
    case Taken(id, bound, e, decided, allow, wide) =>
      w.slot.Empty? && Handling(w, id, bound) && Recorded(w, id, decided, allow, wide)
    case Closing(id, bound, e, status, wide, seen) =>
      && w.slot.Empty? && Handling(w, id, bound)
      && (status == CONSUMED || status == INVALIDATED || status == INTERRUPTED)
      && (status == CONSUMED ==> e == OK && Recorded(w, id, true, true, wide) && seen == bound.snapshot)
      && (status == INVALIDATED ==> Recorded(w, id, true, true, wide))
      && (w.session.current.value.status == PENDING ==> !w.session.current.value.sessionWide)
  }

  ghost predicate ConsumedIn(log: seq<Approval>, n: nat, id: string, bound: Bound) {
    n < |log| && log[n].status == CONSUMED && log[n].id == id && log[n].bound == bound
  }

  ghost predicate WideIn(log: seq<Approval>, n: nat, key: GrantKey) {
    n < |log| && log[n].status == CONSUMED && log[n].sessionWide && KeyOf(log[n].bound) == key
  }

  /** Why a call was allowed. */
  ghost predicate Justified(log: seq<Approval>, hostApproved: set<string>, r: Return) {
    r.allowed ==>
      if r.prompted then
        && (exists n: nat :: ConsumedIn(log, n, r.id, r.bound))
        && r.id in hostApproved && r.seen == r.bound.snapshot
      else exists n: nat :: WideIn(log, n, KeyOf(r.bound))
  }

  ghost predicate HistoryInv(w: World) {
    && (forall r :: r in w.answers ==> Justified(w.session.log, w.hostApproved, r))
    && (forall k :: k in w.grants ==> exists n: nat :: WideIn(w.session.log, n, k))
  }

  ghost predicate IdsIssued(s: Session, issued: set<string>) {
    && (s.current.Some? ==> s.current.value.id in issued)
    && (forall a :: a in s.log ==> a.id in issued)
  }

  ghost predicate StoreInv(w: World) {
    && Coherent(w.session)
    && IdsIssued(w.session, w.issued)
    && (!w.storeFailed ==> !w.session.recoveryRequired)
    && (!w.storeFailed && w.worker.Idle? && w.session.current.Some? ==> !w.session.current.value.Live())
  }

  ghost predicate Inv(w: World) {
    StoreInv(w) && WorkerInv(w) && HistoryInv(w)
  }

  // ---------------------------------------------------------------- preservation

  /** The session a step saves into: unchanged, or one guarded save of a record with an issued id. */
  ghost predicate SavedInto(s: Session, t: Session, issued: set<string>) {
    t == s || exists proposed: Approval, append: Append ::
                proposed.id in issued && append.WellFormed() && t == Saved(s, proposed, append).0
  }

  lemma SaveIssues(s: Session, proposed: Approval, append: Append, issued: set<string>)
    requires IdsIssued(s, issued) && proposed.id in issued
    ensures var t := Saved(s, proposed, append).0;
            IdsIssued(t, issued) && (t.recoveryRequired ==> s.recoveryRequired || t.current == s.current)
  {
  }

  /** A guarded save keeps memory and log coherent and only extends the log. */
  lemma SaveKeepsStore(s: Session, t: Session, issued: set<string>)
    requires Coherent(s) && IdsIssued(s, issued) && SavedInto(s, t, issued)
    ensures Coherent(t) && IdsIssued(t, issued) && s.log <= t.log
    ensures t.recoveryRequired ==> s.recoveryRequired || t.current == s.current
  {
    if t != s {
      var proposed: Approval, append: Append :|
        proposed.id in issued && append.WellFormed() && t == Saved(s, proposed, append).0;
      SaveKeepsCoherent(s, proposed, append);
      SaveIssues(s, proposed, append, issued);
    }
  }

  lemma CallSaves(w: World, a: Action, t: World)
    requires a.Call? && Possible(w, a) && t == Next(w, a)
    ensures SavedInto(w.session, t.session, t.issued) && w.issued <= t.issued
  {
    var pending := Approval(0, a.id, a.request.(snapshot := w.workspace), PENDING, false);
    assert t.session == w.session || t.session == Saved(w.session, pending, a.append).0;
  }

  lemma FinishSaves(w: World, a: Action, t: World)
    requires a.Finish? && Possible(w, a) && t == Next(w, a) && w.session.current.Some?
    requires w.session.current.value.id in w.issued
    ensures SavedInto(w.session, t.session, t.issued) && w.issued == t.issued
  {
    var x := w.session.current.value;
    assert t.session == w.session
      || t.session == Saved(w.session, x.(status := w.worker.status, sessionWide := x.sessionWide), a.append).0;
  }

  lemma ConfirmSaves(w: World, a: Action, t: World)
    requires a.Confirm? && Possible(w, a) && t == Next(w, a)
    requires w.session.current.Some? ==> w.session.current.value.id in w.issued
    ensures SavedInto(w.session, t.session, t.issued) && w.issued == t.issued
  {
    if t.session != w.session {
      var x := w.session.current.value;
      var status := if a.allow then APPROVED else ApprovalStatus.DENIED;
      assert t.session == Saved(w.session, x.(status := status, sessionWide := a.allow && a.wide), a.append).0;
    }
  }

  /** Every step but a restart saves at most once. */
  lemma StepSaves(w: World, a: Action, t: World)
    requires WorkerInv(w) && IdsIssued(w.session, w.issued) && Possible(w, a) && t == Next(w, a) && !a.Reopen?
    ensures SavedInto(w.session, t.session, t.issued) && w.issued <= t.issued
  {
    match a
    case Call(_, _, _, _) => CallSaves(w, a, t);
    case Finish(_) => FinishSaves(w, a, t);
    case Confirm(_, _, _, _) => ConfirmSaves(w, a, t);
    case _ =>
  }

  /** What the worker's step does to the flags and the record it handles. */
  ghost predicate StepInv(w: World) {
    && WorkerInv(w)
    && (!w.storeFailed ==> !w.session.recoveryRequired)
    && (!w.storeFailed && w.worker.Idle? && w.session.current.Some? ==> !w.session.current.value.Live())
  }

  lemma PromptedKeeps(w: World, id: string, bound: Bound, e: Status)
    requires w.slot.Empty? && id in w.issued && (!w.storeFailed ==> !w.session.recoveryRequired)
    requires e == OK ==>
               && w.session.current.Some?
               && w.session.current.value.status == PENDING && !w.session.current.value.sessionWide
               && w.session.current.value.id == id && w.session.current.value.bound == bound
    requires e != OK && !w.storeFailed && w.session.current.Some? ==> !w.session.current.value.Live()
    ensures StepInv(Prompted(w, id, bound, e))
  {
  }

  lemma CallKeepsStep(w: World, a: Action, t: World)
    requires StepInv(w) && a.Call? && Possible(w, a) && t == Next(w, a)
    requires w.session.current.Some? ==> w.session.current.value.id in w.issued
    ensures StepInv(t)
  {
    if KeyOf(a.request) !in w.grants && a.prepareError == OK {
      var bound := a.request.(snapshot := w.workspace);
      var (session, e) := Saved(w.session, Approval(0, a.id, bound, PENDING, false), a.append);
      var failed := w.storeFailed || !SaveWorks(w.session, a.append);
      PromptedKeeps(w.(session := session, storeFailed := failed, issued := w.issued + {a.id}), a.id, bound, e);
    }
  }

  /** A transition that is stored changes only the status and the scope of the record. */
  ghost predicate Transits(s: Session, status: ApprovalStatus, wide: bool, append: Append, t: Session, e: Status) {
    && (e == OK ==>
          && s.current.Some? && t.current.Some?
          && t.current.value
             == s.current.value.(status := status, sessionWide := wide, sequence := t.current.value.sequence)
          && t.log == s.log + [t.current.value])
    && (e != OK ==> t.current == s.current)
    && (t.recoveryRequired ==> s.recoveryRequired || append != Stored)
  }

  lemma TransitionSays(s: Session, status: ApprovalStatus, wide: bool, append: Append)
    requires append.WellFormed()
    ensures var (t, e) := Transitioned(s, status, wide, append); Transits(s, status, wide, append, t, e)
  {
  }

  /** A decision that is stored is the one on record. */
  lemma SettledKeeps(w: World, id: string, allow: bool, wide: bool, before: Session)
    requires w.worker.Published? || w.worker.Waiting?
    requires w.slot.Open? && w.slot.id == id && w.worker.id == id && Handling(w, id, w.worker.bound)
    requires Recorded(w.(session := before), id, false, false, false) && w.session.current.Some?
    requires w.session.current.value.status == StatusOf(allow) && w.session.current.value.sessionWide == wide
    ensures WorkerInv(Settled(w, id, allow, wide))
  {
  }

  lemma ConfirmKeepsStep(w: World, a: Action, t: World)
    requires StepInv(w) && a.Confirm? && Possible(w, a) && t == Next(w, a)
    ensures StepInv(t)
  {
    if !w.slot.Empty? && w.slot.id == a.id && !w.slot.decided {
      TransitionSays(w.session, StatusOf(a.allow), a.allow && a.wide, a.append);
      var (session, e) := Transitioned(w.session, StatusOf(a.allow), a.allow && a.wide, a.append);
      if e == OK {
        var next := w.(session := session, storeFailed := w.storeFailed || !SaveWorks(w.session, a.append));
        SettledKeeps(next, a.id, a.allow, a.allow && a.wide, w.session);
      }
    }
  }

  lemma JudgeKeepsStep(w: World, a: Action, t: World)
    requires StepInv(w) && a.Judge? && Possible(w, a) && t == Next(w, a)
    ensures StepInv(t)
  {
  }

  /** Without a store failure the closing transition cannot be refused. */
  lemma ClosingSaves(w: World, append: Append)
    requires WorkerInv(w) && w.worker.Closing? && !w.session.recoveryRequired
    requires w.session.current.Some? && w.session.current.value.Live() && SaveWorks(w.session, append)
    ensures var (t, e) := Transitioned(w.session, w.worker.status, w.session.current.value.sessionWide, append);
            e == OK && !t.recoveryRequired && t.current.Some? && !t.current.value.Live()
  {
  }

  lemma FinishKeepsStep(w: World, a: Action, t: World)
    requires StepInv(w) && a.Finish? && Possible(w, a) && t == Next(w, a)
    ensures StepInv(t)
  {
    if !t.storeFailed && w.session.current.value.Live() {
      ClosingSaves(w, a.append);
    }
  }

  lemma StepKeepsStep(w: World, a: Action, t: World)
    requires StepInv(w) && Possible(w, a) && t == Next(w, a) && !a.Reopen?
    requires w.session.current.Some? ==> w.session.current.value.id in w.issued
    ensures StepInv(t)
  {
    match a
    case Call(_, _, _, _) => CallKeepsStep(w, a, t);
    case Confirm(_, _, _, _) => ConfirmKeepsStep(w, a, t);
    case Judge(_, _) => JudgeKeepsStep(w, a, t);
    case Finish(_) => FinishKeepsStep(w, a, t);
    case _ =>
  }

  /** Justifications survive as the log and the approvals grow. */
  lemma JustifiedGrows(log: seq<Approval>, approved: set<string>, longer: seq<Approval>, more: set<string>, r: Return)
    requires Justified(log, approved, r) && log <= longer && approved <= more
    ensures Justified(longer, more, r)
  {
    if r.allowed && r.prompted {
      var n: nat :| ConsumedIn(log, n, r.id, r.bound);
      assert ConsumedIn(longer, n, r.id, r.bound);
    } else if r.allowed {
      WideGrows(log, longer, KeyOf(r.bound));
    }
  }

  lemma WideGrows(log: seq<Approval>, longer: seq<Approval>, key: GrantKey)
    requires log <= longer && exists n: nat :: WideIn(log, n, key)
    ensures exists n: nat :: WideIn(longer, n, key)
  {
    var n: nat :| WideIn(log, n, key);
    assert WideIn(longer, n, key);
  }

  lemma HistoryGrows(w: World, t: World)
    requires HistoryInv(w)
    requires w.session.log <= t.session.log && w.hostApproved <= t.hostApproved
    requires t.answers == w.answers
             || exists r :: t.answers == w.answers + [r] && Justified(t.session.log, t.hostApproved, r)
    requires forall k :: k in t.grants ==> k in w.grants || exists n: nat :: WideIn(t.session.log, n, k)
    ensures HistoryInv(t)
  {
    forall r | r in w.answers ensures Justified(t.session.log, t.hostApproved, r) {
      JustifiedGrows(w.session.log, w.hostApproved, t.session.log, t.hostApproved, r);
    }
    forall k | k in t.grants ensures exists n: nat :: WideIn(t.session.log, n, k) {
      if k in w.grants {
        WideGrows(w.session.log, t.session.log, k);
      }
    }
  }

  /** The answer a call gives at once is allowed by a grant, or not at all. */
  lemma CallAnswers(w: World, a: Action, t: World)
    requires a.Call? && Possible(w, a) && t == Next(w, a)
    ensures t.grants == w.grants && t.hostApproved == w.hostApproved
    ensures t.worker.Idle? ==>
              && |t.answers| == |w.answers| + 1 && t.answers == w.answers + [t.answers[|w.answers|]]
              && var r := t.answers[|w.answers|];
                 r.allowed ==> !r.prompted && r.bound == a.request && KeyOf(a.request) in w.grants
    ensures !t.worker.Idle? ==> t.answers == w.answers
  {
  }

  lemma CallIsJustified(w: World, a: Action, t: World)
    requires HistoryInv(w) && a.Call? && Possible(w, a) && t == Next(w, a) && w.session.log <= t.session.log
    ensures HistoryInv(t)
  {
    CallAnswers(w, a, t);
    if t.worker.Idle? {
      var r := t.answers[|w.answers|];
      if r.allowed {
        WideGrows(w.session.log, t.session.log, KeyOf(a.request));
      }
      assert Justified(t.session.log, t.hostApproved, r);
    }
    HistoryGrows(w, t);
  }

  lemma AnsweredSays(w: World, saved: Status)
    requires w.worker.Closing?
    ensures var t, c := Answered(w, saved), w.worker;
            && t.session == w.session && t.hostApproved == w.hostApproved
            && |t.answers| == |w.answers| + 1 && t.answers == w.answers + [t.answers[|w.answers|]]
            && var r := t.answers[|w.answers|];
               && r.id == c.id && r.bound == c.bound && r.seen == c.seen && r.prompted
               && (r.allowed ==> c.status == CONSUMED && saved == OK)
               && (t.grants == w.grants || (r.allowed && c.wide && t.grants == w.grants + [KeyOf(c.bound)]))
  {
  }

  /** A record that is consumed without error has just been stored as consumed. */
  lemma ConsumedIsStored(w: World, append: Append)
    requires WorkerInv(w) && w.worker.Closing? && w.worker.status == CONSUMED && append.WellFormed()
    ensures var (session, saved) := Closed(w.session, CONSUMED, append);
            saved == OK ==>
              && ConsumedIn(session.log, |w.session.log|, w.worker.id, w.worker.bound)
              && session.log[|w.session.log|].sessionWide == w.worker.wide
  {
    TransitionSays(w.session, CONSUMED, w.session.current.value.sessionWide, append);
  }

  lemma FinishIsJustified(w: World, append: Append, t: World)
    requires WorkerInv(w) && HistoryInv(w) && w.worker.Closing? && append.WellFormed()
    requires t == Finished(w, append) && w.session.log <= t.session.log
    ensures HistoryInv(t)
  {
    var (session, saved) := Closed(w.session, w.worker.status, append);
    var next := w.(session := session, storeFailed := w.storeFailed || CloseFails(w.session, append));
    AnsweredSays(next, saved);
    var r, n := t.answers[|w.answers|], |w.session.log|;
    if r.allowed {
      ConsumedIsStored(w, append);
      assert ConsumedIn(t.session.log, n, r.id, r.bound);
      assert w.worker.wide ==> WideIn(t.session.log, n, KeyOf(r.bound));
    }
    assert Justified(t.session.log, t.hostApproved, r);
    HistoryGrows(w, t);
  }

  lemma JudgeIsJustified(w: World, a: Action, t: World)
    requires HistoryInv(w) && a.Judge? && Possible(w, a) && t == Next(w, a)
    ensures HistoryInv(t)
  {
    if t.worker.Idle? {
      var r := t.answers[|w.answers|];
      assert t.answers == w.answers + [r] && !r.allowed;
    }
    HistoryGrows(w, t);
  }

  lemma ConfirmIsJustified(w: World, a: Action, t: World)
    requires HistoryInv(w) && a.Confirm? && Possible(w, a) && t == Next(w, a) && w.session.log <= t.session.log
    ensures HistoryInv(t)
  {
    HistoryGrows(w, t);
  }

  lemma StepKeepsHistory(w: World, a: Action, t: World)
    requires WorkerInv(w) && HistoryInv(w) && Possible(w, a) && t == Next(w, a) && w.session.log <= t.session.log
    ensures HistoryInv(t)
  {
    match a
    case Call(_, _, _, _) => CallIsJustified(w, a, t);
    case Finish(append) => FinishIsJustified(w, append, t);
    case Judge(_, _) => JudgeIsJustified(w, a, t);
    case Confirm(_, _, _, _) => ConfirmIsJustified(w, a, t);
    case _ => HistoryGrows(w, t);
  }

  lemma LoadKeepsIssued(log: seq<Approval>, append: Append, issued: set<string>)
    requires forall a :: a in log ==> a.id in issued
    ensures IdsIssued(Loaded(log, append).0, issued)
  {
  }

  lemma ReopenKeepsStore(w: World, a: Action, t: World)
    requires StoreInv(w) && a.Reopen? && Possible(w, a) && t == Next(w, a)
    ensures StoreInv(t) && w.session.log <= t.session.log
  {
    LoadInterrupts(w.session.log, a.append);
    LoadKeepsIssued(w.session.log, a.append, w.issued);
  }

  lemma InvNext(w: World, a: Action, t: World)
    requires Inv(w) && Possible(w, a) && t == Next(w, a)
    ensures Inv(t)
  {
    if a.Reopen? {
      ReopenKeepsStore(w, a, t);
    } else {
      StepSaves(w, a, t);
      SaveKeepsStore(w.session, t.session, t.issued);
      StepKeepsStep(w, a, t);
    }
    StepKeepsHistory(w, a, t);
  }

  lemma {:induction false} Invariant(actions: seq<Action>, workspace: string, w: World)
    requires w == Run(actions, workspace)
    ensures Inv(w)
  {
    if actions != [] {
      var before, last := Run(actions[..|actions| - 1], workspace), actions[|actions| - 1];
      Invariant(actions[..|actions| - 1], workspace, before);
      if Possible(before, last) {
        InvNext(before, last, w);
      }
    }
  }

  // ---------------------------------------------------------------- what the design promises

  /** Three consecutive records of one id and one set of reviewed fields. */
  ghost predicate ReviewedAt(log: seq<Approval>, n: nat, id: string, bound: Bound) {
    && n + 2 < |log|
    && log[n].status == PENDING && log[n + 1].status == APPROVED && log[n + 2].status == CONSUMED
    && log[n].id == log[n + 1].id == log[n + 2].id == id
    && log[n].bound == log[n + 1].bound == log[n + 2].bound == bound
  }

  /** Over every interleaving, an allowed prompted call has its own consumed record on disk,
    * preceded by the host's approval and the pending record with the same reviewed fields;
    * the host approved that id; and the workspace seen at the end is the reviewed one. */
  lemma AllowedOnlyIfApproved(actions: seq<Action>, workspace: string, r: Return)
    requires r in Run(actions, workspace).answers && r.prompted && r.allowed
    ensures var w := Run(actions, workspace);
            && r.id in w.hostApproved && r.seen == r.bound.snapshot
            && exists n: nat :: ReviewedAt(w.session.log, n, r.id, r.bound)
  {
    var w := Run(actions, workspace);
    Invariant(actions, workspace, w);
    assert Justified(w.session.log, w.hostApproved, r);
    var n: nat :| ConsumedIn(w.session.log, n, r.id, r.bound);
    ConsumedWasReviewed(w.session.log, n);
    assert ReviewedAt(w.session.log, n - 2, r.id, r.bound);
  }

  /** An unprompted call is allowed only under a consumed session-wide approval of the same
    * tool, package, workspace and profile. */
  lemma GrantsComeFromApprovals(actions: seq<Action>, workspace: string, r: Return)
    requires r in Run(actions, workspace).answers && !r.prompted && r.allowed
    ensures exists n: nat :: WideIn(Run(actions, workspace).session.log, n, KeyOf(r.bound))
  {
    var w := Run(actions, workspace);
    Invariant(actions, workspace, w);
    assert Justified(w.session.log, w.hostApproved, r);
  }

  /** Unless the store failed, no call returns with its approval still live. */
  lemma ReturnsLeaveTerminal(actions: seq<Action>, workspace: string)
    ensures var w := Run(actions, workspace);
            !w.storeFailed && w.worker.Idle? && w.session.current.Some? ==> !w.session.current.value.Live()
  {
    Invariant(actions, workspace, Run(actions, workspace));
  }

  ghost predicate LeftLive(w: World) {
    w.worker.Idle? && w.session.current.Some? && w.session.current.value.Live()
  }

  /** Closing leaves the approval live exactly when the store already needs recovery, or the
    * closing save itself cannot be stored. */
  lemma ClosingLeavesLive(w: World, append: Append)
    requires WorkerInv(w) && w.worker.Closing? && append.WellFormed()
    requires w.session.current.Some? && w.session.current.value.Live()
    ensures LeftLive(Finished(w, append)) <==> w.session.recoveryRequired || !SaveWorks(w.session, append)
  {
    if !w.session.recoveryRequired && SaveWorks(w.session, append) {
      ClosingSaves(w, append);
    }
  }

  /** In any reachable state, an action that leaves the worker idle leaves an approval live exactly
    * when one was live already, or when it closes one that cannot be stored as closed. */
  lemma ReturnsLeaveLiveIff(actions: seq<Action>, workspace: string, w: World, a: Action)
    requires w == Run(actions, workspace) && Possible(w, a) && !a.Reopen? && Next(w, a).worker.Idle?
    ensures LeftLive(Next(w, a))
            <==> LeftLive(w)
                 || (a.Finish? && w.session.current.Some? && w.session.current.value.Live()
                     && (w.session.recoveryRequired || !SaveWorks(w.session, a.append)))
  {
    Invariant(actions, workspace, w);
    match a
    case Finish(append) =>
      if w.session.current.value.Live() { ClosingLeavesLive(w, append); }
    case Call(_, _, _, _) => CallLeavesLive(w, a);
    case _ =>
  }

  lemma CallLeavesLive(w: World, a: Action)
    requires WorkerInv(w) && a.Call? && Possible(w, a) && Next(w, a).worker.Idle?
    ensures Next(w, a).session.current == w.session.current
  {
  }

  /** Nobody is waiting, and the store needs recovery or still holds a live approval. */
  ghost predicate Stuck(w: World) {
    && w.worker.Idle? && w.slot.Empty?
    && (w.session.recoveryRequired
        || (w.session.current.Some? && w.session.current.value.Live() && w.session.current.value.id in w.issued))
  }

  lemma StuckSaves(s: Session, next: Approval, append: Append)
    requires s.recoveryRequired || (s.current.Some? && s.current.value.Live() && s.current.value.id != next.id)
    ensures Saved(s, next, append).0 == s && Saved(s, next, append).1 != OK
  {
  }

  /** A stuck store accepts no new prompt. */
  lemma StuckRefuses(w: World, a: Action)
    requires Stuck(w) && a.Call? && Possible(w, a) && KeyOf(a.request) !in w.grants
    ensures var t := Next(w, a);
            && t.worker.Idle? && t.session == w.session && t.slot == w.slot && t.grants == w.grants
            && |t.answers| == |w.answers| + 1 && t.answers == w.answers + [t.answers[|w.answers|]]
            && !t.answers[|w.answers|].allowed
  {
    StuckSaves(w.session, Approval(0, a.id, a.request.(snapshot := w.workspace), PENDING, false), a.append);
  }

  /** What a stuck state keeps: its store, and no prompted call allowed among the answers. */
  ghost predicate StillStuck(w: World, t: World) {
    && Stuck(t) && t.session == w.session && t.grants == w.grants && w.issued <= t.issued && w.answers <= t.answers
    && forall r :: r in t.answers[|w.answers|..] ==> r.allowed ==> !r.prompted && KeyOf(r.bound) in w.grants
  }

  lemma StuckStep(w: World, t: World, a: Action)
    requires StillStuck(w, t) && Possible(t, a) && !a.Reopen?
    ensures StillStuck(w, Next(t, a))
  {
    if a.Call? {
      var next := Next(t, a);
      if KeyOf(a.request) !in t.grants { StuckRefuses(t, a); }
      assert next.answers[|w.answers|..] == t.answers[|w.answers|..] + [next.answers[|t.answers|]];
    }
  }

  /** A stuck state stays stuck in every run until the session is reopened: whatever the hosts and
    * the calls do, no later prompt is allowed. */
  lemma {:induction false} StuckUntilReopened(actions: seq<Action>, more: seq<Action>, workspace: string)
    requires Stuck(Run(actions, workspace))
    requires forall a :: a in more ==> !a.Reopen?
    ensures StillStuck(Run(actions, workspace), Run(actions + more, workspace))
    decreases |more|
  {
    if more == [] {
      assert actions + more == actions;
    } else {
      var front, last := more[..|more| - 1], more[|more| - 1];
      var all := actions + more;
      assert all[..|all| - 1] == actions + front;
      StuckUntilReopened(actions, front, workspace);
      var w, t := Run(actions, workspace), Run(actions + front, workspace);
      if Possible(t, last) { StuckStep(w, t, last); }
    }
  }

  /** So an approval that a return leaves live blocks every later prompt. */
  lemma LeftLiveBlocks(actions: seq<Action>, more: seq<Action>, workspace: string)
    requires LeftLive(Run(actions, workspace))
    requires forall a :: a in more ==> !a.Reopen?
    ensures StillStuck(Run(actions, workspace), Run(actions + more, workspace))
  {
    Invariant(actions, workspace, Run(actions, workspace));
    StuckUntilReopened(actions, more, workspace);
  }

  /** A run after one more action. */
  lemma OneActionMore(actions: seq<Action>, a: Action, workspace: string, w: World)
    requires w == Run(actions, workspace) && Possible(w, a)
    ensures Run(actions + [a], workspace) == Next(w, a)
  {
    assert (actions + [a])[..|actions|] == actions;
  }

  /** A prompt that waits for a decision, with its pending record in the store. */
  ghost predicate Asking(w: World, id: string) {
    && w.worker.Waiting? && w.worker.id == id && w.worker.e == OK && w.slot == Open(id, false, false, false)
    && !w.session.recoveryRequired && w.session.current.Some? && w.session.current.value.status == PENDING
    && w.session.current.value.sequence < INT64_MAX
  }

  function Asked(id: string, request: Bound): seq<Action> {
    [Call(id, request, OK, Stored)] + [Publish] + [Announce(OK)]
  }

  lemma FirstPrompt(id: string, request: Bound, workspace: string)
    ensures Asking(Run(Asked(id, request), workspace), id)
  {
    var call := Call(id, request, OK, Stored);
    var w := Next(Start(workspace), call);
    assert [] + [call] == [call];
    OneActionMore([], call, workspace, Start(workspace));
    OneActionMore([call], Publish, workspace, w);
    OneActionMore([call] + [Publish], Announce(OK), workspace, Next(w, Publish));
  }

  lemma CancelledPrompt(w: World, id: string, t: World)
    requires Asking(w, id) && t == Next(Next(w, Cancel), Take)
    ensures Possible(w, Cancel) && Possible(Next(w, Cancel), Take) && Possible(t, Judge(OK, true))
    ensures var c := Next(t, Judge(OK, true));
            Possible(c, Finish(Failed(false))) && LeftLive(Next(c, Finish(Failed(false))))
  {
  }

  /** One such return: a prompt is cancelled and the record that closes it fails to be stored. */
  lemma ReturnLeavesLive(id: string, request: Bound, workspace: string)
    ensures var asked := Asked(id, request);
            LeftLive(Run(asked + [Cancel] + [Take] + [Judge(OK, true)] + [Finish(Failed(false))], workspace))
  {
    var actions := Asked(id, request);
    var w := Run(actions, workspace);
    FirstPrompt(id, request, workspace);
    var t := Next(Next(w, Cancel), Take);
    CancelledPrompt(w, id, t);
    OneActionMore(actions, Cancel, workspace, w);
    OneActionMore(actions + [Cancel], Take, workspace, Next(w, Cancel));
    OneActionMore(actions + [Cancel] + [Take], Judge(OK, true), workspace, t);
    OneActionMore(actions + [Cancel] + [Take] + [Judge(OK, true)], Finish(Failed(false)), workspace,
                  Next(t, Judge(OK, true)));
  }

  /** A decision is final: repeating it succeeds, contradicting it is refused, and neither changes anything. */
  lemma DecisionsAreFinal(w: World, id: string, allow: bool, wide: bool, append: Append,
                          again: bool, againWide: bool, append': Append)
    requires Confirmed(w, id, allow, wide, append).1 == OK
    ensures var t := Confirmed(w, id, allow, wide, append).0;
            Confirmed(t, id, again, againWide, append')
            == (t, if again == allow && (again && againWide) == (allow && wide) then OK else BUSY)
  {
  }
}
