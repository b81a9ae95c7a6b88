/** What one pass of the action loop comes to, told by what the pass starts from and meets. */
module ActionPasses {
  import opened Statuses
  import opened Draft
  import opened ActionLoop

  /** The pass gets as far as a decision that is applied. */
  predicate Reaches(cfg: Config, t: Track, p: Pass) {
    && t.steps < cfg.maxSteps && t.cycles < 3 && !p.expired
    && p.prepared == OK && p.newline && p.parsed.Some? && p.recorded == OK && !p.cancelled && !p.late
  }

  predicate Takes(cfg: Config, t: Track, p: Pass, step: Step) {
    Reaches(cfg, t, p) && p.parsed.value == step
  }

  predicate MayCall(cfg: Config, t: Track, p: Pass) {
    cfg.purpose.discover && p.selection && !t.mutes.call
  }

  predicate MayThink(cfg: Config, t: Track) {
    cfg.thinkLimit > 0 && !t.mutes.think
  }

  predicate Missing(cfg: Config, marks: Marks) {
    cfg.purpose.generates && !marks.written && !marks.blocked
  }

  /** The decision is applied, and the loop may go on after it. */
  predicate GoesOn(cfg: Config, t: Track, p: Pass) {
    Reaches(cfg, t, p) && StepGoesOn(cfg, p, p.parsed.value, MayCall(cfg, t, p))
  }

  /** After it, no more than one futile step in a row, or nothing yet to answer with. */
  predicate Promising(cfg: Config, t: Track, asked: seq<Question>, p: Pass)
    requires p.parsed.Some?
  {
    var step, marks := p.parsed.value, MarksAfter(t.marks, p, p.parsed.value, MayCall(cfg, t, p));
    || FutileAfter(cfg, t.futile, asked, p, step, MayCall(cfg, t, p), MayThink(cfg, t)) < 2
    || !marks.seen
    || (cfg.purpose.coding && marks.written && p.unverified)
  }

  /** A pass that reaches its decision. */
  lemma ReachedIs(cfg: Config, t: Track, asked: seq<Question>, p: Pass, step: Step, callNow: bool, thinkNow: bool,
                  m: Meaning)
    requires Reaches(cfg, t, p) && step == p.parsed.value
    requires callNow == MayCall(cfg, t, p) && thinkNow == MayThink(cfg, t)
    requires m == Decided(cfg, Unmuted(t).(steps := t.steps + 1), asked, step, p, callNow, thinkNow)
    ensures Passed(cfg, t, asked, p) == Guarded(cfg, step, p, Forgiven(step, m))
  {
    assert Readied(p) == OK && !Spent(cfg, t, p);
    assert Applied(cfg, Unmuted(t), asked, step, p, callNow, thinkNow) == m;
  }

  /** Why a pass does not. */
  function Hindrance(cfg: Config, t: Track, p: Pass): Status {
    if t.steps >= cfg.maxSteps || p.expired || t.cycles >= 3 then if Missing(cfg, t.marks) then PROTOCOL else OK
    else if p.prepared != OK then p.prepared
    else if !p.newline || p.parsed.None? then PROTOCOL
    else if p.recorded != OK then p.recorded
    else if p.cancelled then CANCELLED
    else TIMEOUT
  }

  /** It leaves the loop, at its bounds with an answer forced, and changes no more than the mutes. */
  lemma NotReachedIs(cfg: Config, t: Track, asked: seq<Question>, p: Pass, m: Meaning)
    requires !Reaches(cfg, t, p) && m == Passed(cfg, t, asked, p)
    ensures m.e == Hindrance(cfg, t, p) && m.event.None?
    ensures m.exit == Some(if m.e == OK then OutOfSteps else Stopped)
    ensures m.t == t.(mutes := m.t.mutes, forced := t.forced || m.e == OK)
  {
  }

  // ---------------------------------------------------------------- how the loop is left

  /** How a decision leaves the loop, but for the guard against futile steps. */
  ghost predicate Leaves(cfg: Config, marks: Marks, p: Pass, step: Step, callNow: bool, exit: Option<Exit>) {
    && (exit == Some(Answered) <==> step.Answer? && !Missing(cfg, marks))
    && (exit == Some(Clarified) <==> step.Clarify?)
    && (exit == Some(Hung) <==> step.Call? && callNow && Hangs(cfg.normal, p.effect))
    && exit != Some(OutOfSteps)
    && (exit in {None, Some(Futile)} <==> StepGoesOn(cfg, p, step, callNow))
  }

  lemma DecisionLeaves(cfg: Config, t: Track, asked: seq<Question>, p: Pass, step: Step, callNow: bool, thinkNow: bool,
                       m: Meaning)
    requires m == Forgiven(step, Decided(cfg, t, asked, step, p, callNow, thinkNow))
    ensures Leaves(cfg, t.marks, p, step, callNow, m.exit) && m.exit != Some(Futile)
  {
  }

  lemma GuardLeaves(cfg: Config, step: Step, p: Pass, m: Meaning, g: Meaning)
    requires g == Guarded(cfg, step, p, m)
    ensures m.exit.Some? ==> g.exit == m.exit
    ensures m.exit.None? ==>
              g.exit == if m.t.futile >= 2 && m.t.marks.seen
                           && !(cfg.purpose.coding && m.t.marks.written && p.unverified)
                        then Some(Futile) else None
  {
  }

  /** How a pass leaves the loop, or that it does not, for every answer of the model: an answer is final
    * unless the artifact is missing, a question to the user always; a step that goes on ends the loop
    * only as the second futile one in a row with something to answer with. */
  lemma PassExits(cfg: Config, t: Track, asked: seq<Question>, p: Pass)
    ensures var exit := Passed(cfg, t, asked, p).exit;
            if !Reaches(cfg, t, p) then exit == Some(if Hindrance(cfg, t, p) == OK then OutOfSteps else Stopped)
            else && Leaves(cfg, t.marks, p, p.parsed.value, MayCall(cfg, t, p), exit)
                 && (exit == None <==> GoesOn(cfg, t, p) && Promising(cfg, t, asked, p))
  {
    var m := Passed(cfg, t, asked, p);
    if Reaches(cfg, t, p) {
      var step, callNow, thinkNow := p.parsed.value, MayCall(cfg, t, p), MayThink(cfg, t);
      var u := Unmuted(t).(steps := t.steps + 1);
      var d := Decided(cfg, u, asked, step, p, callNow, thinkNow);
      ReachedIs(cfg, t, asked, p, step, callNow, thinkNow, d);
      DecisionLeaves(cfg, u, asked, p, step, callNow, thinkNow, Forgiven(step, d));
      StepLeaves(cfg, u, asked, p, step, callNow, thinkNow, t.futile, t.marks, Forgiven(step, d));
      GuardLeaves(cfg, step, p, Forgiven(step, d), m);
    } else {
      NotReachedIs(cfg, t, asked, p, m);
    }
  }

  // ---------------------------------------------------------------- what is recorded

  /** The history gets what was decided: a THINK step accepted or refused, a new question recalled, another
    * step; an answer, a question to the user and what is no step leave none. */
  ghost predicate Records(step: Step, asked: seq<Question>, thinkNow: bool, event: Option<Event>) {
    match step
    case Answer | Clarify | Unknown => event == None
    case Think => event == Some(if thinkNow then Thought else ThoughtRefused)
    case Recall(q) => event == Some(if q in asked || |asked| >= 3 then Other else Recalled(q))
    case _ => event == Some(Other)
  }

  lemma DecisionRecords(cfg: Config, t: Track, asked: seq<Question>, p: Pass, step: Step, callNow: bool, thinkNow: bool,
                        m: Meaning)
    requires m == Guarded(cfg, step, p, Forgiven(step, Decided(cfg, t, asked, step, p, callNow, thinkNow)))
    ensures Records(step, asked, thinkNow, m.event) && m.t.steps == t.steps
  {
  }

  lemma PassRecords(cfg: Config, t: Track, asked: seq<Question>, p: Pass)
    ensures var m := Passed(cfg, t, asked, p);
            if Reaches(cfg, t, p) then
              Records(p.parsed.value, asked, MayThink(cfg, t), m.event) && m.t.steps == t.steps + 1
            else m.event.None? && m.t.steps == t.steps && m.e == Hindrance(cfg, t, p)
  {
    var m := Passed(cfg, t, asked, p);
    if Reaches(cfg, t, p) {
      var step, callNow, thinkNow := p.parsed.value, MayCall(cfg, t, p), MayThink(cfg, t);
      var u := Unmuted(t).(steps := t.steps + 1);
      ReachedIs(cfg, t, asked, p, step, callNow, thinkNow, Decided(cfg, u, asked, step, p, callNow, thinkNow));
      DecisionRecords(cfg, u, asked, p, step, callNow, thinkNow, m);
    } else {
      NotReachedIs(cfg, t, asked, p, m);
    }
  }

  // ---------------------------------------------------------------- escalation

  /** A tool action that was invalid is forgiven, but the generator tier decides from then on. */
  predicate Invalid(cfg: Config, p: Pass, step: Step, callNow: bool) {
    step.Call? && callNow && !Hangs(cfg.normal, p.effect)
    && Reported(cfg.normal, p.effect.draft, p.effect.result) == PROTOCOL
  }

  /** A second repeated call, before anything escalated. */
  predicate Escalates(cfg: Config, t: Track, p: Pass, step: Step, callNow: bool) {
    && step.Call? && StepGoesOn(cfg, p, step, callNow) && !Invalid(cfg, p, step, callNow)
    && (if callNow then p.effect.repeats else t.repeats) >= 2 && !t.capable
  }

  lemma DecisionEscalates(cfg: Config, t: Track, asked: seq<Question>, p: Pass, step: Step, callNow: bool,
                          thinkNow: bool, m: Meaning)
    requires m == Guarded(cfg, step, p, Forgiven(step, Decided(cfg, t, asked, step, p, callNow, thinkNow)))
    requires !t.mutes.call
    ensures m.t.capable <==> t.capable || Invalid(cfg, p, step, callNow) || Escalates(cfg, t, p, step, callNow)
    ensures StepGoesOn(cfg, p, step, callNow) ==>
              m.t.mutes.call == (step.Call? && callNow && p.effect.mute && !Escalates(cfg, t, p, step, callNow))
  {
  }

  /** The generator tier decides from some pass on exactly when that pass calls a tool in an invalid way
    * or repeats a call again; the latter lifts the mute on calls, and it can do so once, for a tier that
    * is raised is never lowered. */
  lemma EscalatedOnce(cfg: Config, t: Track, asked: seq<Question>, p: Pass)
    ensures var m, callNow := Passed(cfg, t, asked, p), MayCall(cfg, t, p);
            && (m.t.capable
                <==> t.capable
                     || (Reaches(cfg, t, p)
                         && (Invalid(cfg, p, p.parsed.value, callNow)
                             || Escalates(cfg, t, p, p.parsed.value, callNow))))
            && (GoesOn(cfg, t, p) ==>
                  (m.t.mutes.call
                   <==> p.parsed.value.Call? && callNow && p.effect.mute
                        && !Escalates(cfg, t, p, p.parsed.value, callNow)))
  {
    var m := Passed(cfg, t, asked, p);
    if Reaches(cfg, t, p) {
      var step, callNow, thinkNow := p.parsed.value, MayCall(cfg, t, p), MayThink(cfg, t);
      var u := Unmuted(t).(steps := t.steps + 1);
      ReachedIs(cfg, t, asked, p, step, callNow, thinkNow, Decided(cfg, u, asked, step, p, callNow, thinkNow));
      DecisionEscalates(cfg, u, asked, p, step, callNow, thinkNow, m);
    } else {
      NotReachedIs(cfg, t, asked, p, m);
    }
  }

  /** The tracks of the passes of one loop. */
  ghost predicate Follow(cfg: Config, ts: seq<Track>, asks: seq<seq<Question>>, ps: seq<Pass>) {
    && |ts| == |ps| + 1 && |asks| == |ps|
    && forall k :: 0 <= k < |ps| ==> ts[k + 1] == Passed(cfg, ts[k], asks[k], ps[k]).t
  }

  ghost predicate EscalatesAt(cfg: Config, ts: seq<Track>, ps: seq<Pass>, k: nat)
    requires k < |ps| && k < |ts|
  {
    Reaches(cfg, ts[k], ps[k]) && Escalates(cfg, ts[k], ps[k], ps[k].parsed.value, MayCall(cfg, ts[k], ps[k]))
  }

  lemma {:induction false} StaysCapable(cfg: Config, ts: seq<Track>, asks: seq<seq<Question>>, ps: seq<Pass>, i: nat,
                                        j: nat)
    requires Follow(cfg, ts, asks, ps) && i <= j < |ts| && ts[i].capable
    ensures ts[j].capable
    decreases j
  {
    if i < j {
      StaysCapable(cfg, ts, asks, ps, i, j - 1);
      EscalatedOnce(cfg, ts[j - 1], asks[j - 1], ps[j - 1]);
    }
  }

  /** Of all passes of a loop, repeated calls escalate in at most one. */
  lemma EscalatesOnceALoop(cfg: Config, ts: seq<Track>, asks: seq<seq<Question>>, ps: seq<Pass>, i: nat, j: nat)
    requires Follow(cfg, ts, asks, ps) && i < |ps| && j < |ps|
    requires EscalatesAt(cfg, ts, ps, i) && EscalatesAt(cfg, ts, ps, j)
    ensures i == j
  {
    EscalatedOnce(cfg, ts[i], asks[i], ps[i]);
    EscalatedOnce(cfg, ts[j], asks[j], ps[j]);
    if i < j { StaysCapable(cfg, ts, asks, ps, i + 1, j); }
    if j < i { StaysCapable(cfg, ts, asks, ps, j + 1, i); }
  }
}
