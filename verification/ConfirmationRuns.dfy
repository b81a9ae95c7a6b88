/** What whole runs of the approval race promise: why a call was allowed, told by the actions that
  * came before, and which record ends the log. */
module ConfirmationRuns {
  import opened Statuses
  import opened Approvals
  import opened Confirmations

  /** One action more of a run. */
  lemma RunStep(actions: seq<Action>, n: nat, workspace: string)
    requires n < |actions|
    ensures var w := Run(actions[..n], workspace);
            Run(actions[..n + 1], workspace) == if Possible(w, actions[n]) then Next(w, actions[n]) else w
  {
    assert actions[..n + 1][..n] == actions[..n];
  }

  // ---------------------------------------------------------------- cancellation and expiry

  ghost predicate Resets(actions: seq<Action>, k: nat, workspace: string) {
    && k < |actions| && (actions[k].NewTurn? || actions[k].Reopen?)
    && Possible(Run(actions[..k], workspace), actions[k])
  }

  predicate Disturbs(a: Action) { a.Cancel? || a.Expire? }

  /** By the first n actions every cancellation and every expiry is followed by a new turn or a restart. */
  ghost predicate Undisturbed(actions: seq<Action>, n: nat, workspace: string) {
    forall i {:trigger Disturbs(actions[i])} :: 0 <= i < n <= |actions| && Disturbs(actions[i]) ==>
      exists k {:trigger Resets(actions, k, workspace)} :: i < k < n && Resets(actions, k, workspace)
  }

  lemma UndisturbedStep(actions: seq<Action>, n: nat, workspace: string)
    requires n < |actions|
    ensures Undisturbed(actions, n + 1, workspace)
            <==> Resets(actions, n, workspace) || (Undisturbed(actions, n, workspace) && !Disturbs(actions[n]))
  {
    if Undisturbed(actions, n + 1, workspace) && !Resets(actions, n, workspace) {
      forall i | 0 <= i < n && Disturbs(actions[i])
        ensures exists k {:trigger Resets(actions, k, workspace)} :: i < k < n && Resets(actions, k, workspace)
      {
        var k :| i < k < n + 1 && Resets(actions, k, workspace);
        assert k < n;
      }
    }
    if Undisturbed(actions, n, workspace) && !Disturbs(actions[n]) {
      forall i | 0 <= i < n + 1 && Disturbs(actions[i])
        ensures exists k {:trigger Resets(actions, k, workspace)} :: i < k < n + 1 && Resets(actions, k, workspace)
      {
        var k :| i < k < n && Resets(actions, k, workspace);
      }
    }
  }

  lemma FlagsStep(w: World, a: Action, t: World)
    requires Possible(w, a) && t == Next(w, a)
    ensures !t.cancelled && !t.expired
            <==> a.NewTurn? || a.Reopen? || (!w.cancelled && !w.expired && !Disturbs(a))
  {
  }

  /** A turn is neither cancelled nor expired exactly when nothing disturbed it since it began. */
  lemma {:induction false} FlagsMean(actions: seq<Action>, n: nat, workspace: string)
    requires n <= |actions|
    ensures var w := Run(actions[..n], workspace);
            !w.cancelled && !w.expired <==> Undisturbed(actions, n, workspace)
  {
    if n > 0 {
      FlagsMean(actions, n - 1, workspace);
      RunStep(actions, n - 1, workspace);
      var w, a := Run(actions[..n - 1], workspace), actions[n - 1];
      if Possible(w, a) { FlagsStep(w, a, Next(w, a)); }
      UndisturbedStep(actions, n - 1, workspace);
    }
  }

  /** A prompt is taken up exactly when waiting failed, the host decided, or the turn was disturbed. */
  lemma TakenWhenDue(actions: seq<Action>, workspace: string, w: World)
    requires w == Run(actions, workspace) && w.worker.Waiting?
    ensures Possible(w, Take)
            <==> w.worker.e != OK || (w.slot.Open? && w.slot.id == w.worker.id && w.slot.decided)
                 || !Undisturbed(actions, |actions|, workspace)
  {
    assert actions[..|actions|] == actions;
    FlagsMean(actions, |actions|, workspace);
    Invariant(actions, workspace, w);
  }

  // ---------------------------------------------------------------- what is written, and by whom

  /** The record an action may write. */
  ghost predicate Writes(w: World, a: Action, r: Approval) {
    match a
    case Call(id, request, _, _) =>
      r.status == PENDING && !r.sessionWide && r.id == id && r.bound == request.(snapshot := w.workspace)
    case Confirm(id, allow, wide, _) =>
      && r.status == (if allow then APPROVED else ApprovalStatus.DENIED) && r.sessionWide == (allow && wide)
      && r.id == id && w.slot.Open? && w.slot.id == id && !w.slot.decided
    case Finish(_) =>
      && w.worker.Closing? && r.id == w.worker.id && r.bound == w.worker.bound
      && (r.status == CONSUMED || r.status == INVALIDATED || r.status == INTERRUPTED)
    case Reopen(_) => r.status == INTERRUPTED
    case _ => false
  }

  /** Nothing, or this one record. */
  ghost predicate AtMostWrites(w: World, a: Action, t: World) {
    t.session.log == w.session.log
    || exists r :: Writes(w, a, r) && t.session.log == w.session.log + [r]
  }

  lemma SaveWrites(s: Session, proposed: Approval, append: Append)
    ensures var t := Saved(s, proposed, append).0;
            t.log == s.log
            || (exists n: nat :: n > 0 && t.log == s.log + [proposed.(sequence := n)])
  {
  }

  lemma CallWrites(w: World, a: Action, t: World)
    requires a.Call? && Possible(w, a) && t == Next(w, a)
    ensures AtMostWrites(w, a, t)
  {
    var proposed := Approval(0, a.id, a.request.(snapshot := w.workspace), PENDING, false);
    SaveWrites(w.session, proposed, a.append);
    if t.session.log != w.session.log {
      var n: nat :| n > 0 && t.session.log == w.session.log + [proposed.(sequence := n)];
      assert Writes(w, a, proposed.(sequence := n));
    }
  }

  lemma ConfirmWrites(w: World, a: Action, t: World)
    requires WorkerInv(w) && a.Confirm? && Possible(w, a) && t == Next(w, a)
    ensures AtMostWrites(w, a, t)
  {
    if t.session.log != w.session.log {
      var x := w.session.current.value;
      var proposed := x.(status := StatusOf(a.allow), sessionWide := a.allow && a.wide);
      SaveWrites(w.session, proposed, a.append);
      var n: nat :| n > 0 && t.session.log == w.session.log + [proposed.(sequence := n)];
      assert Writes(w, a, proposed.(sequence := n));
    }
  }

  lemma FinishWrites(w: World, a: Action, t: World)
    requires WorkerInv(w) && a.Finish? && Possible(w, a) && t == Next(w, a)
    ensures AtMostWrites(w, a, t)
  {
    if t.session.log != w.session.log {
      var x := w.session.current.value;
      var proposed := x.(status := w.worker.status);
      SaveWrites(w.session, proposed, a.append);
      var n: nat :| n > 0 && t.session.log == w.session.log + [proposed.(sequence := n)];
      assert Writes(w, a, proposed.(sequence := n));
    }
  }

  lemma ReopenWrites(w: World, a: Action, t: World)
    requires a.Reopen? && Possible(w, a) && t == Next(w, a)
    ensures AtMostWrites(w, a, t)
  {
    if t.session.log != w.session.log {
      var s := Session(Last(w.session.log), w.session.log, false);
      var proposed := s.current.value.(status := INTERRUPTED);
      SaveWrites(s, proposed, a.append);
      var n: nat :| n > 0 && t.session.log == w.session.log + [proposed.(sequence := n)];
      assert Writes(w, a, proposed.(sequence := n));
    }
  }

  lemma StepWrites(w: World, a: Action, t: World)
    requires WorkerInv(w) && Possible(w, a) && t == Next(w, a)
    ensures AtMostWrites(w, a, t)
  {
    match a
    case Call(_, _, _, _) => CallWrites(w, a, t);
    case Confirm(_, _, _, _) => ConfirmWrites(w, a, t);
    case Finish(_) => FinishWrites(w, a, t);
    case Reopen(_) => ReopenWrites(w, a, t);
    case _ =>
  }

  ghost predicate WrittenAt(actions: seq<Action>, k: nat, workspace: string, r: Approval) {
    && k < |actions| && Possible(Run(actions[..k], workspace), actions[k])
    && Writes(Run(actions[..k], workspace), actions[k], r)
  }

  ghost predicate WrittenBefore(actions: seq<Action>, n: nat, workspace: string, r: Approval) {
    exists k {:trigger WrittenAt(actions, k, workspace, r)} :: 0 <= k < n && WrittenAt(actions, k, workspace, r)
  }

  /** Every record of the log was written by an action that may write it: an approval by a host's
    * decision, a consumption by a call that was closing. */
  lemma {:induction false} RecordsHaveWriters(actions: seq<Action>, n: nat, workspace: string)
    requires n <= |actions|
    ensures forall r :: r in Run(actions[..n], workspace).session.log ==> WrittenBefore(actions, n, workspace, r)
  {
    if n > 0 {
      RecordsHaveWriters(actions, n - 1, workspace);
      RunStep(actions, n - 1, workspace);
      var w, a, t := Run(actions[..n - 1], workspace), actions[n - 1], Run(actions[..n], workspace);
      Invariant(actions[..n - 1], workspace, w);
      if Possible(w, a) { StepWrites(w, a, t); }
      forall r | r in t.session.log ensures WrittenBefore(actions, n, workspace, r) {
        if r in w.session.log {
          var k: nat :| k < n - 1 && WrittenAt(actions, k, workspace, r);
          assert k < n && WrittenAt(actions, k, workspace, r);
        } else {
          assert WrittenAt(actions, n - 1, workspace, r);
        }
      }
    }
  }

  // ---------------------------------------------------------------- why a call was allowed

  /** All a final check asks for: the wait ended without error and with a decision to allow, and the
    * workspace is the one that was reviewed. */
  ghost predicate Passes(w: World, id: string, bound: Bound) {
    && w.worker.Taken? && w.worker.id == id && w.worker.bound == bound
    && w.worker.e == OK && w.worker.decided && w.worker.allow && w.workspace == bound.snapshot
  }

  ghost predicate CheckedAt(actions: seq<Action>, j: nat, workspace: string, id: string, bound: Bound) {
    && j < |actions| && actions[j] == Judge(OK, true)
    && Passes(Run(actions[..j], workspace), id, bound) && Undisturbed(actions, j, workspace)
  }

  ghost predicate CheckedBefore(actions: seq<Action>, n: nat, workspace: string, id: string, bound: Bound) {
    exists j {:trigger CheckedAt(actions, j, workspace, id, bound)} ::
      0 <= j < n && CheckedAt(actions, j, workspace, id, bound)
  }

  /** A call was closed in full after its check. */
  ghost predicate ClosedAt(actions: seq<Action>, k: nat, workspace: string, id: string, bound: Bound) {
    k < |actions| && actions[k] == Finish(Stored) && CheckedBefore(actions, k, workspace, id, bound)
  }

  ghost predicate ClosedBefore(actions: seq<Action>, n: nat, workspace: string, id: string, bound: Bound) {
    exists k {:trigger ClosedAt(actions, k, workspace, id, bound)} ::
      0 <= k < n && ClosedAt(actions, k, workspace, id, bound)
  }

  predicate Consuming(w: World) { w.worker.Closing? && w.worker.status == CONSUMED }

  /** Only a check that passes lets a call consume its approval. */
  lemma ConsumingStep(w: World, a: Action, t: World)
    requires Possible(w, a) && t == Next(w, a) && Consuming(t)
    ensures (Consuming(w) && w.worker == t.worker)
            || (a == Judge(OK, true) && Passes(w, t.worker.id, t.worker.bound) && !w.cancelled && !w.expired)
  {
  }

  lemma FinishAllows(w: World, append: Append, r: Return)
    requires WorkerInv(w) && w.worker.Closing? && append.WellFormed()
    requires r in Finished(w, append).answers && r.allowed && r !in w.answers
    ensures append == Stored && Consuming(w) && w.worker.id == r.id && w.worker.bound == r.bound
  {
    var (session, saved) := Confirmations.Closed(w.session, w.worker.status, append);
    AnsweredSays(w.(session := session, storeFailed := w.storeFailed || CloseFails(w.session, append)), saved);
  }

  /** Only a consumption that is stored allows a prompted call. */
  lemma AllowedStep(w: World, a: Action, t: World, r: Return)
    requires WorkerInv(w) && Possible(w, a) && t == Next(w, a)
    requires r in t.answers && r.prompted && r.allowed && r !in w.answers
    ensures a == Finish(Stored) && Consuming(w) && w.worker.id == r.id && w.worker.bound == r.bound
  {
    match a
    case Finish(append) => FinishAllows(w, append, r);
    case Call(_, _, _, _) => CallAnswers(w, a, t);
    case _ =>
  }

  /** What a run has behind it: a check for each consumption under way, a closing for each call allowed. */
  ghost predicate Explained(actions: seq<Action>, n: nat, workspace: string, w: World) {
    && (Consuming(w) ==> CheckedBefore(actions, n, workspace, w.worker.id, w.worker.bound))
    && forall r :: r in w.answers && r.prompted && r.allowed ==> ClosedBefore(actions, n, workspace, r.id, r.bound)
  }

  lemma ExplainedGrows(actions: seq<Action>, n: nat, workspace: string, id: string, bound: Bound)
    ensures CheckedBefore(actions, n, workspace, id, bound) ==> CheckedBefore(actions, n + 1, workspace, id, bound)
    ensures ClosedBefore(actions, n, workspace, id, bound) ==> ClosedBefore(actions, n + 1, workspace, id, bound)
  {
    if CheckedBefore(actions, n, workspace, id, bound) {
      var j: nat :| j < n && CheckedAt(actions, j, workspace, id, bound);
      assert j < n + 1;
    }
    if ClosedBefore(actions, n, workspace, id, bound) {
      var k: nat :| k < n && ClosedAt(actions, k, workspace, id, bound);
      assert k < n + 1;
    }
  }

  lemma ExplainedStep(actions: seq<Action>, n: nat, workspace: string, w: World, t: World)
    requires n < |actions| && w == Run(actions[..n], workspace) && Explained(actions, n, workspace, w)
    requires WorkerInv(w) && Possible(w, actions[n]) && t == Next(w, actions[n])
    requires !w.cancelled && !w.expired ==> Undisturbed(actions, n, workspace)
    ensures Explained(actions, n + 1, workspace, t)
  {
    if Consuming(t) {
      ConsumingStep(w, actions[n], t);
      if Consuming(w) && w.worker == t.worker {
        ExplainedGrows(actions, n, workspace, w.worker.id, w.worker.bound);
      } else {
        assert CheckedAt(actions, n, workspace, t.worker.id, t.worker.bound);
      }
    }
    forall r | r in t.answers && r.prompted && r.allowed
      ensures ClosedBefore(actions, n + 1, workspace, r.id, r.bound)
    {
      if r in w.answers {
        ExplainedGrows(actions, n, workspace, r.id, r.bound);
      } else {
        AllowedStep(w, actions[n], t, r);
        assert ClosedAt(actions, n, workspace, r.id, r.bound);
      }
    }
  }

  lemma {:induction false} RunsAreExplained(actions: seq<Action>, n: nat, workspace: string)
    requires n <= |actions|
    ensures Explained(actions, n, workspace, Run(actions[..n], workspace))
  {
    if n > 0 {
      RunsAreExplained(actions, n - 1, workspace);
      RunStep(actions, n - 1, workspace);
      var w := Run(actions[..n - 1], workspace);
      Invariant(actions[..n - 1], workspace, w);
      FlagsMean(actions, n - 1, workspace);
      if Possible(w, actions[n - 1]) {
        ExplainedStep(actions, n - 1, workspace, w, Next(w, actions[n - 1]));
      } else {
        StillExplained(actions, n - 1, workspace, w);
      }
    }
  }

  lemma StillExplained(actions: seq<Action>, n: nat, workspace: string, w: World)
    requires Explained(actions, n, workspace, w)
    ensures Explained(actions, n + 1, workspace, w)
  {
    if Consuming(w) { ExplainedGrows(actions, n, workspace, w.worker.id, w.worker.bound); }
    forall r | r in w.answers && r.prompted && r.allowed
      ensures ClosedBefore(actions, n + 1, workspace, r.id, r.bound)
    {
      ExplainedGrows(actions, n, workspace, r.id, r.bound);
    }
  }

  ghost predicate ApprovedAt(actions: seq<Action>, c: nat, workspace: string, id: string) {
    && c < |actions| && actions[c].Confirm? && actions[c].id == id && actions[c].allow
    && Possible(Run(actions[..c], workspace), actions[c])
    && var w := Run(actions[..c], workspace); w.slot.Open? && w.slot.id == id && !w.slot.decided
  }

  ghost predicate IsLogged(s: Session) {
    s.current.Some? ==> s.current.value in s.log
  }

  lemma SaveLogs(s: Session, proposed: Approval, append: Append)
    requires IsLogged(s)
    ensures IsLogged(Saved(s, proposed, append).0)
  {
  }

  lemma StepLogs(w: World, a: Action, t: World)
    requires WorkerInv(w) && IdsIssued(w.session, w.issued) && IsLogged(w.session) && Possible(w, a) && t == Next(w, a)
    ensures IsLogged(t.session)
  {
    if a.Reopen? {
      var s := Session(Last(w.session.log), w.session.log, false);
      if s.current.Some? { SaveLogs(s, s.current.value.(status := INTERRUPTED), a.append); }
    } else {
      StepSaves(w, a, t);
      if t.session != w.session {
        var proposed: Approval, append: Append :|
          proposed.id in t.issued && append.WellFormed() && t.session == Saved(w.session, proposed, append).0;
        SaveLogs(w.session, proposed, append);
      }
    }
  }

  /** The record in memory is on disk. */
  lemma {:induction false} RunsAreLogged(actions: seq<Action>, n: nat, workspace: string)
    requires n <= |actions|
    ensures IsLogged(Run(actions[..n], workspace).session)
  {
    if n > 0 {
      RunsAreLogged(actions, n - 1, workspace);
      RunStep(actions, n - 1, workspace);
      var w := Run(actions[..n - 1], workspace);
      Invariant(actions[..n - 1], workspace, w);
      if Possible(w, actions[n - 1]) { StepLogs(w, actions[n - 1], Next(w, actions[n - 1])); }
    }
  }

  /** A decision to allow that was taken up had been made by a host for that very prompt. */
  lemma TakenWasApproved(actions: seq<Action>, j: nat, workspace: string, id: string, bound: Bound)
    requires j <= |actions| && Passes(Run(actions[..j], workspace), id, bound)
    ensures exists c: nat {:trigger ApprovedAt(actions, c, workspace, id)} ::
              c < j && ApprovedAt(actions, c, workspace, id)
  {
    var w := Run(actions[..j], workspace);
    Invariant(actions[..j], workspace, w);
    RunsAreLogged(actions, j, workspace);
    var r := w.session.current.value;
    assert r.status == APPROVED && r in w.session.log;
    RecordsHaveWriters(actions, j, workspace);
    var c: nat :| c < j && WrittenAt(actions, c, workspace, r);
    assert ApprovedAt(actions, c, workspace, id);
  }

  /** The order of events behind a prompted call that was allowed: the host's approval, then a check
    * that passes in a turn neither cancelled nor expired, then a record that is stored. */
  ghost predicate Proper(actions: seq<Action>, workspace: string, id: string, bound: Bound, c: nat, j: nat, k: nat) {
    && c < j < k < |actions| && ApprovedAt(actions, c, workspace, id)
    && CheckedAt(actions, j, workspace, id, bound) && actions[k] == Finish(Stored)
  }

  /** Over every interleaving, an allowed prompted call was approved by the host for that prompt, then
    * checked with the selection valid and the workspace as reviewed, with no cancellation or expiry
    * since the turn began, and then stored. */
  lemma AllowedWasChecked(actions: seq<Action>, workspace: string, r: Return)
    requires r in Run(actions, workspace).answers && r.prompted && r.allowed
    ensures exists c: nat, j: nat, k: nat :: Proper(actions, workspace, r.id, r.bound, c, j, k)
  {
    var n := |actions|;
    assert actions[..n] == actions;
    RunsAreExplained(actions, n, workspace);
    var k: nat :| k < n && ClosedAt(actions, k, workspace, r.id, r.bound);
    var j: nat :| j < k && CheckedAt(actions, j, workspace, r.id, r.bound);
    TakenWasApproved(actions, j, workspace, r.id, r.bound);
    var c: nat :| c < j && ApprovedAt(actions, c, workspace, r.id);
    assert Proper(actions, workspace, r.id, r.bound, c, j, k);
  }

  // ---------------------------------------------------------------- which record ends the log

  /** The wait ended with a decision, in a turn neither cancelled nor expired. */
  predicate Timely(w: World) {
    w.worker.Taken? && w.worker.e == OK && w.worker.decided && !w.cancelled && !w.expired
  }

  /** The store takes one record more. */
  ghost predicate Ready(s: Session) {
    !s.recoveryRequired && (s.current.Some? ==> s.current.value.sequence < INT64_MAX)
  }

  /** The call returned, and added this record about its approval to the log. */
  ghost predicate EndsWith(w: World, t: World, status: ApprovalStatus, allowed: bool, e: Status) {
    && t.worker.Idle? && w.worker.Taken? && w.session.log != []
    && var k, last := w.worker, w.session.log[|w.session.log| - 1];
       && last.id == k.id && last.bound == k.bound
       && t.session.log
          == w.session.log + [Approval(last.sequence + 1, k.id, k.bound, status, last.sessionWide)]
       && t.answers == w.answers + [Return(k.id, k.bound, true, allowed, w.workspace, e)]
  }

  /** The call returned without another record; the last one is the host's denial. */
  ghost predicate EndsDenied(w: World, t: World, e: Status) {
    && t.worker.Idle? && w.worker.Taken? && t.session.log == w.session.log != []
    && var k, last := w.worker, w.session.log[|w.session.log| - 1];
       && last.id == k.id && last.bound == k.bound && last.status == ApprovalStatus.DENIED
       && t.answers == w.answers + [Return(k.id, k.bound, true, false, w.workspace, e)]
  }

  lemma LiveCloses(s: Session, status: ApprovalStatus)
    requires Ready(s) && s.current.Some? && s.current.value.Live()
    requires status == INTERRUPTED
             || (s.current.value.status == APPROVED && (status == CONSUMED || status == INVALIDATED))
    requires s.current.value.status == PENDING ==> !s.current.value.sessionWide
    ensures var next := s.current.value.(sequence := s.current.value.sequence + 1, status := status);
            Confirmations.Closed(s, status, Stored) == (Session(Some(next), s.log + [next], false), OK)
  {
  }

  lemma FinishEnds(w: World, v: World, t: World)
    requires w.worker.Taken? && WorkerInv(w) && Ready(w.session) && w.session.current == Last(w.session.log)
    requires v.worker.Closing? && v == w.(worker := v.worker) && t == Next(v, Finish(Stored))
    requires v.worker.id == w.worker.id && v.worker.bound == w.worker.bound && v.worker.seen == w.workspace
    requires v.worker.status == INTERRUPTED
             || (w.worker.decided && w.worker.allow && (v.worker.status == CONSUMED || v.worker.status == INVALIDATED))
    ensures var c := v.worker;
            if w.worker.decided && !w.worker.allow && c.e == w.worker.e then EndsDenied(w, t, c.e)
            else w.session.current.value.Live() ==> EndsWith(w, t, c.status, c.status == CONSUMED && c.e == OK, c.e)
  {
    if w.session.current.value.Live() { LiveCloses(w.session, v.worker.status); }
  }

  /** What the final check answers, and what it leaves at the end of the log. */
  ghost predicate Verdicts(w: World, error: Status, valid: bool, v: World, t: World) {
    && w.worker.Taken?
    && var k := w.worker;
       if !Timely(w) then
         if k.decided && !k.allow then EndsDenied(w, t, k.e) else EndsWith(w, t, INTERRUPTED, false, k.e)
       else if !k.allow then EndsDenied(w, v, OK)
       else if error == OK && valid && w.workspace == k.bound.snapshot then EndsWith(w, t, CONSUMED, true, OK)
       else EndsWith(w, t, INVALIDATED, false, error)
  }

  lemma JudgedEnds(w: World, error: Status, valid: bool, v: World)
    requires WorkerInv(w) && w.worker.Taken? && w.session.current == Last(w.session.log) && Ready(w.session)
    requires v == Next(w, Judge(error, valid))
    ensures v.worker.Closing? || v.worker.Idle?
    ensures Verdicts(w, error, valid, v, if v.worker.Closing? then Next(v, Finish(Stored)) else v)
  {
    if v.worker.Closing? { FinishEnds(w, v, Next(v, Finish(Stored))); }
  }

  /** In every reachable state where a prompt was taken up, a store that takes the closing record is
    * left with the record the verdict calls for, and the call returns that verdict. */
  lemma VerdictIsStored(actions: seq<Action>, workspace: string, w: World, error: Status, valid: bool)
    requires w == Run(actions, workspace) && w.worker.Taken? && Ready(w.session)
    ensures Possible(w, Judge(error, valid))
    ensures var v := Next(w, Judge(error, valid));
            Verdicts(w, error, valid, v, if v.worker.Closing? then Next(v, Finish(Stored)) else v)
  {
    Invariant(actions, workspace, w);
    JudgedEnds(w, error, valid, Next(w, Judge(error, valid)));
  }

  /** A store that needs recovery ends the wait of an undecided prompt, and the call is not allowed. */
  lemma BrokenStoreEndsWait(w: World, error: Status, valid: bool, append: Append)
    requires Possible(w, Poll) && w.session.recoveryRequired && append.WellFormed()
    ensures Possible(Next(w, Poll), Take)
    ensures var v := Next(Next(Next(w, Poll), Take), Judge(error, valid));
            && Possible(v, Finish(append)) && var t := Next(v, Finish(append));
               && t.worker.Idle?
               && t.answers == w.answers + [Return(w.worker.id, w.worker.bound, true, false, w.workspace, IO)]
  {
  }

  // ---------------------------------------------------------------- a prompt that is answered in time

  /** Nobody waits, the turn is neither cancelled nor expired, and the store takes three records more. */
  ghost predicate Calm(w: World) {
    && w.worker.Idle? && !w.cancelled && !w.expired && !w.session.recoveryRequired
    && (w.session.current.Some? ==>
          !w.session.current.value.Live() && w.session.current.value.sequence + 3 <= INT64_MAX)
  }

  /** The records of an approval, from its first on. */
  function Records(first: nat, id: string, bound: Bound, allow: bool, wide: bool): seq<Approval> {
    if allow then
      [Approval(first, id, bound, PENDING, false), Approval(first + 1, id, bound, APPROVED, wide),
       Approval(first + 2, id, bound, CONSUMED, wide)]
    else [Approval(first, id, bound, PENDING, false), Approval(first + 1, id, bound, ApprovalStatus.DENIED, false)]
  }

  function First(w: World): nat {
    if w.session.current.Some? then w.session.current.value.sequence + 1 else 1
  }

  /** After the prompt was announced. */
  function AskedWorld(w: World, id: string, bound: Bound): World {
    var pending := Approval(First(w), id, bound, PENDING, false);
    w.(session := Session(Some(pending), w.session.log + [pending], false), slot := Open(id, false, false, false),
       worker := Waiting(id, bound, OK), issued := w.issued + {id})
  }

  lemma AskingSteps(w: World, id: string, request: Bound)
    requires Calm(w) && StoreInv(w) && w.slot.Empty? && id !in w.issued && KeyOf(request) !in w.grants
    ensures var call := Call(id, request, OK, Stored);
            && Possible(w, call) && Possible(Next(w, call), Publish)
            && Possible(Next(Next(w, call), Publish), Announce(OK))
            && Next(Next(Next(w, call), Publish), Announce(OK)) == AskedWorld(w, id, request.(snapshot := w.workspace))
  {
  }

  /** After the decision was taken up. */
  function DecidedWorld(w: World, id: string, allow: bool, wide: bool): World
    requires w.session.current.Some?
  {
    var last := w.session.current.value;
    var decision := Approval(last.sequence + 1, id, last.bound, StatusOf(allow), wide);
    w.(session := Session(Some(decision), w.session.log + [decision], false), slot := Empty,
       worker := Taken(id, last.bound, OK, true, allow, wide),
       hostApproved := if allow then w.hostApproved + {id} else w.hostApproved)
  }

  lemma DecidingSteps(w: World, id: string, allow: bool, wide: bool)
    requires Asking(w, id) && w.session.current.value.id == id && w.worker.bound == w.session.current.value.bound
    requires !w.session.current.value.sessionWide
    ensures var confirm := Confirm(id, allow, wide, Stored);
            && Possible(w, confirm) && Possible(Next(w, confirm), Take)
            && Next(Next(w, confirm), Take) == DecidedWorld(w, id, allow, allow && wide)
  {
  }

  /** What a prompt that was answered leaves: its records, its answer, and perhaps a grant. */
  ghost predicate AnsweredAs(w: World, t: World, id: string, bound: Bound, allow: bool, wide: bool) {
    && t.worker.Idle? && t.slot.Empty? && !t.session.recoveryRequired
    && t.session.log == w.session.log + Records(First(w), id, bound, allow, wide)
    && t.answers == w.answers + [Return(id, bound, true, allow, w.workspace, OK)]
    && t.grants == w.grants + (if wide then [KeyOf(bound)] else [])
  }

  lemma ClosingSteps(w: World, d: World, id: string, bound: Bound, allow: bool, wide: bool)
    requires Calm(w) && bound.snapshot == w.workspace && (wide ==> allow)
    requires d == DecidedWorld(AskedWorld(w, id, bound), id, allow, wide)
    ensures Possible(d, Judge(OK, true))
    ensures var v := Next(d, Judge(OK, true));
            if allow then Possible(v, Finish(Stored)) && AnsweredAs(w, Next(v, Finish(Stored)), id, bound, allow, wide)
            else AnsweredAs(w, v, id, bound, allow, wide)
  {
  }

  lemma ThreeMore(actions: seq<Action>, a: Action, b: Action, c: Action, workspace: string, w: World)
    requires w == Run(actions, workspace)
    requires Possible(w, a) && Possible(Next(w, a), b) && Possible(Next(Next(w, a), b), c)
    ensures Run(actions + [a] + [b] + [c], workspace) == Next(Next(Next(w, a), b), c)
  {
    OneActionMore(actions, a, workspace, w);
    OneActionMore(actions + [a], b, workspace, Next(w, a));
    OneActionMore(actions + [a] + [b], c, workspace, Next(Next(w, a), b));
  }

  function Asks(actions: seq<Action>, id: string, request: Bound): seq<Action> {
    actions + [Call(id, request, OK, Stored)] + [Publish] + [Announce(OK)]
  }

  function Decides(actions: seq<Action>, id: string, allow: bool, wide: bool): seq<Action> {
    actions + [Confirm(id, allow, wide, Stored)] + [Take] + [Judge(OK, true)]
  }

  /** After any run, a call with no grant that is prompted, decided in time and stored returns as the
    * host decided, and leaves exactly the records of its approval. */
  lemma PromptIsAnswered(actions: seq<Action>, workspace: string, w: World, id: string, request: Bound,
                         allow: bool, wide: bool)
    requires w == Run(actions, workspace) && Calm(w) && id !in w.issued && KeyOf(request) !in w.grants
    ensures var decided := Decides(Asks(actions, id, request), id, allow, wide);
            var t := Run(if allow then decided + [Finish(Stored)] else decided, workspace);
            AnsweredAs(w, t, id, request.(snapshot := w.workspace), allow, allow && wide)
  {
    Invariant(actions, workspace, w);
    var bound, asks := request.(snapshot := w.workspace), Asks(actions, id, request);
    AskingSteps(w, id, request);
    ThreeMore(actions, Call(id, request, OK, Stored), Publish, Announce(OK), workspace, w);
    var q := AskedWorld(w, id, bound);
    DecidingSteps(q, id, allow, wide);
    var d := DecidedWorld(q, id, allow, allow && wide);
    ClosingSteps(w, d, id, bound, allow, allow && wide);
    ThreeMore(asks, Confirm(id, allow, wide, Stored), Take, Judge(OK, true), workspace, q);
    if allow {
      OneActionMore(Decides(asks, id, allow, wide), Finish(Stored), workspace, Next(d, Judge(OK, true)));
    }
  }

  /** The same tool and command of the same package, in the same workspace and profile. */
  predicate SameScope(a: Bound, b: Bound) {
    && a.toolRef == b.toolRef && a.command == b.command && a.packageHash == b.packageHash
    && a.workspace == b.workspace && a.profile == b.profile
  }

  /** A grant answers exactly the calls of its scope, at once, without a record or a prompt. */
  lemma GrantAnswers(w: World, granted: Bound, id: string, request: Bound, error: Status, append: Append)
    requires Possible(w, Call(id, request, error, append)) && KeyOf(granted) in w.grants && SameScope(granted, request)
    ensures var t := Next(w, Call(id, request, error, append));
            && t.session == w.session && t.worker.Idle? && t.slot == w.slot
            && t.answers == w.answers + [Return(id, request, false, true, w.workspace, OK)]
  {
  }

  ghost predicate WideFor(log: seq<Approval>, n: nat, request: Bound) {
    n < |log| && log[n].status == CONSUMED && log[n].sessionWide && SameScope(log[n].bound, request)
  }

  /** And only such: an unprompted call is allowed under a consumed session-wide approval of its scope. */
  lemma UnpromptedHasScope(actions: seq<Action>, workspace: string, r: Return)
    requires r in Run(actions, workspace).answers && !r.prompted && r.allowed
    ensures exists n: nat :: WideFor(Run(actions, workspace).session.log, n, r.bound)
  {
    GrantsComeFromApprovals(actions, workspace, r);
    var log := Run(actions, workspace).session.log;
    var n: nat :| WideIn(log, n, KeyOf(r.bound));
    assert WideFor(log, n, r.bound);
  }
}
