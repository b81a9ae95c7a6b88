/** The bounded action loop: a model, free to answer anything, is asked for one step at a time. */
module ActionLoop {
  import opened Statuses
  import opened Utf8
  import opened Draft
  import opened DraftBudget
  import Consumption
  import Operations

  const RECALLS: nat := 3

  /** A digest without collisions: it is what was hashed. */
  type Question = seq<byte>

  datatype Step =
    | Answer | Discover | Clarify | Think | Recall(question: Question)
    | Open(found: bool, readable: bool) | Call | Unknown

  /** A draft that a call needs first: the account it finds, to which other lanes and the loop's
    * own decisions have charged, and what its rounds meet. */
  datatype Drafting = Drafting(account: Account, rounds: seq<Round>)

  /** What a tool call does to the turn, beside its draft. The draft, the tool and its effects are
    * the environment's. */
  datatype Effect = Effect(
    draft: Option<Drafting>, result: Status, futile: nat, repeats: nat, cycles: nat,
    seen: bool, written: bool, blocked: bool, mute: bool)

  /** Everything one pass meets outside the controller. */
  datatype Pass = Pass(
    stop: bool, expired: bool, prepared: Status, newline: bool, parsed: Option<Step>, recorded: Status,
    cancelled: bool, late: bool, selection: bool, selected: Status, unverified: bool, effect: Effect)

  /** What the draft that a call needs comes to. */
  function Written(normal: Normal, draft: Drafting): Progress {
    Drafted(normal, draft.account, [], draft.rounds)
  }

  /** The call's draft is still being continued after all its rounds. */
  predicate Hangs(normal: Normal, effect: Effect) {
    effect.draft.Some? && Written(normal, effect.draft.value).result.Running?
  }

  /** How the loop was left; Hung is a pass that never returned. */
  datatype Exit = Answered | Clarified | OutOfSteps | Futile | Stopped | Hung

  datatype Event = Thought | ThoughtRefused | Recalled(question: Question) | Other

  // ---------------------------------------------------------------- what a history may be

  predicate IsThink(e: Event) { e.Thought? || e.ThoughtRefused? }

  /** The THINK steps accepted since the last step of another kind. */
  function Row(history: seq<Event>): (n: nat)
    ensures n <= |history|
  {
    if history == [] || !IsThink(history[|history| - 1]) then 0
    else Row(history[..|history| - 1]) + (if history[|history| - 1].Thought? then 1 else 0)
  }

  /** At no time more than the limit. */
  predicate RowsBounded(history: seq<Event>, limit: nat) {
    forall k {:trigger history[..k]} :: 0 <= k <= |history| ==> Row(history[..k]) <= limit
  }

  /** The questions recalled, in order. */
  function Recalls(history: seq<Event>): seq<Question> {
    if history == [] then []
    else
      var last := history[|history| - 1];
      Recalls(history[..|history| - 1]) + (if last.Recalled? then [last.question] else [])
  }

  predicate Distinct(qs: seq<Question>) {
    forall i, j {:trigger qs[i], qs[j]} :: 0 <= i < j < |qs| ==> qs[i] != qs[j]
  }

  lemma AppendEvent(history: seq<Event>, e: Event, limit: nat)
    requires RowsBounded(history, limit)
    ensures Row(history + [e]) == if IsThink(e) then Row(history) + (if e.Thought? then 1 else 0) else 0
    ensures Recalls(history + [e]) == Recalls(history) + (if e.Recalled? then [e.question] else [])
    ensures Row(history + [e]) <= limit ==> RowsBounded(history + [e], limit)
  {
    var next := history + [e];
    assert next[..|history|] == history;
    forall k | 0 <= k <= |next| && Row(next) <= limit ensures Row(next[..k]) <= limit {
      if k <= |history| { assert next[..k] == history[..k]; } else { assert next[..k] == next; }
    }
  }

  /** No more than the limit of THINK steps is accepted in a row, so a window one longer holds
    * a step that is not an accepted THINK. */
  lemma {:induction false} WindowHasOther(history: seq<Event>, limit: nat, from: nat, to: nat)
    requires RowsBounded(history, limit) && from + limit < to <= |history|
    ensures exists k :: from <= k < to && !history[k].Thought?
  {
    assert Row(history[..to]) <= limit;
    if forall k :: from <= k < to ==> history[k].Thought? {
      RowOfThoughts(history, from, to);
      assert false;
    }
  }

  lemma {:induction false} RowOfThoughts(history: seq<Event>, from: nat, to: nat)
    requires from <= to <= |history| && forall k :: from <= k < to ==> history[k].Thought?
    ensures Row(history[..to]) >= to - from
  {
    if from < to {
      RowOfThoughts(history, from, to - 1);
      assert history[..to][..to - 1] == history[..to - 1];
    }
  }

  // ---------------------------------------------------------------- the turn

  /** What a turn is for and what it may do: tools may be discovered, an artifact must be produced,
    * code is edited, complex work is decided by the generator tier from the start. */
  datatype Config = Config(maxSteps: nat, thinkLimit: int, purpose: Purpose, normal: Normal)
  datatype Purpose = Purpose(discover: bool, generates: bool, coding: bool, complex: bool)
  {
    predicate Capable() { coding || complex }
  }

  /** Successful tools, artifacts and refused authorizations so far. */
  datatype Marks = Marks(seen: bool, written: bool, blocked: bool)

  /** THINK and CALL are muted for the next pass. */
  datatype Mutes = Mutes(think: bool, call: bool)

  datatype Track = Track(steps: nat, cycles: nat, futile: nat, repeats: nat, thinksRow: nat,
                         mutes: Mutes, marks: Marks, forced: bool, capable: bool)

  /** What a decision returns, what it leaves of the turn, and what it adds to the history. */
  datatype Meaning = Meaning(e: Status, exit: Option<Exit>, t: Track, event: Option<Event>)

  function Limit(cfg: Config): nat { if cfg.thinkLimit > 0 then cfg.thinkLimit else 0 }

  predicate NeedsArtifact(cfg: Config, t: Track) {
    cfg.purpose.generates && !t.marks.written && !t.marks.blocked
  }

  predicate CallNow(cfg: Config, t: Track, p: Pass) {
    cfg.purpose.discover && p.selection && !t.mutes.call
  }

  predicate ThinkNow(cfg: Config, t: Track) {
    cfg.thinkLimit > 0 && !t.mutes.think
  }

  predicate Spent(cfg: Config, t: Track, p: Pass) {
    t.steps >= cfg.maxSteps || p.expired || t.cycles > 2
  }

  /** Two steps without use once a tool has succeeded, unless edited code is yet to be verified. */
  predicate FutileNow(cfg: Config, t: Track, p: Pass) {
    t.futile >= 2 && t.marks.seen && !(cfg.purpose.coding && t.marks.written && p.unverified)
  }

  // ---------------------------------------------------------------- what a decision means

  /** A call reports a failed draft before anything the tool says. */
  function Reported(normal: Normal, draft: Option<Drafting>, result: Status): Status {
    if draft.None? then result
    else
      var content := Written(normal, draft.value).result;
      if content.Error? then content.e else result
  }

  /** A useful step ends a futile row, another one lengthens it. */
  function Counted(t: Track, useful: bool): Track {
    t.(futile := if useful then 0 else t.futile + 1)
  }

  /** Any step but THINK ends the row of THINK steps. */
  function Acted(t: Track, useful: bool): Track {
    Counted(t.(thinksRow := 0), useful)
  }

  function Thinking(cfg: Config, t: Track, thinkNow: bool): Track {
    var row := if thinkNow then t.thinksRow + 1 else t.thinksRow;
    var mute := !thinkNow || row >= cfg.thinkLimit;
    Counted(t.(thinksRow := row, mutes := if mute then t.mutes.(think := true) else t.mutes), thinkNow)
  }

  /** A mark is never taken back. */
  function Marked(marks: Marks, effect: Effect): Marks {
    Marks(marks.seen || effect.seen, marks.written || effect.written, marks.blocked || effect.blocked)
  }

  function Ran(t: Track, effect: Effect): Track {
    t.(futile := effect.futile, repeats := effect.repeats, cycles := effect.cycles,
       mutes := t.mutes.(call := effect.mute), marks := Marked(t.marks, effect))
  }

  function CallMeans(normal: Normal, t: Track, effect: Effect, callNow: bool): Meaning {
    if !callNow then Meaning(OK, None, Acted(t, false), Some(Other))
    else
      var now := t.(thinksRow := 0);
      if Hangs(normal, effect) then Meaning(OK, Some(Hung), now, Some(Other))
      else Meaning(Reported(normal, effect.draft, effect.result), None, Ran(now, effect), Some(Other))
  }

  predicate Recallable(asked: seq<Question>, question: Question) {
    question !in asked && |asked| < RECALLS
  }

  function Remembered(asked: seq<Question>, event: Option<Event>): seq<Question> {
    if event.Some? && event.value.Recalled? then asked + [event.value.question] else asked
  }

  function RecallMeans(t: Track, asked: seq<Question>, question: Question): Meaning {
    var useful := Recallable(asked, question);
    Meaning(OK, None, Acted(t, useful), Some(if useful then Recalled(question) else Other))
  }

  function AnswerMeans(cfg: Config, t: Track): Meaning {
    if NeedsArtifact(cfg, t) then Meaning(PROTOCOL, None, t, None) else Meaning(OK, Some(Answered), t, None)
  }

  function Decided(cfg: Config, t: Track, asked: seq<Question>, step: Step, p: Pass, callNow: bool,
                   thinkNow: bool): Meaning {
    match step
    case Answer => AnswerMeans(cfg, t)
    case Clarify => Meaning(OK, Some(Clarified), t, None)
    case Discover =>
      var discover := cfg.purpose.discover;
      Meaning(if discover then p.selected else OK, None, Acted(t, discover), Some(Other))
    case Think => Meaning(OK, None, Thinking(cfg, t, thinkNow), Some(if thinkNow then Thought else ThoughtRefused))
    case Recall(question) => RecallMeans(t, asked, question)
    case Open(found, readable) => Meaning(OK, None, Acted(t, found && readable), Some(Other))
    case Call => CallMeans(cfg.normal, t, p.effect, callNow)
    case Unknown => Meaning(PROTOCOL, None, t, None)
  }

  /** A decision that is applied at all counts as a step. */
  function Applied(cfg: Config, t: Track, asked: seq<Question>, step: Step, p: Pass, callNow: bool,
                   thinkNow: bool): Meaning {
    if p.cancelled then Meaning(CANCELLED, None, t, None)
    else if p.late then Meaning(TIMEOUT, None, t, None)
    else if t.steps >= cfg.maxSteps then Meaning(LIMIT, None, t, None)
    else Decided(cfg, t.(steps := t.steps + 1), asked, step, p, callNow, thinkNow)
  }

  /** An invalid tool action is forgiven, but never for free; any other failure ends the loop. */
  function Forgiven(step: Step, m: Meaning): Meaning {
    if m.e == PROTOCOL && step.Call? then m.(e := OK, t := m.t.(capable := true, futile := m.t.futile + 1))
    else if m.e != OK then m.(exit := Some(Stopped))
    else m
  }

  /** Repeated calls escalate once. */
  function Escalated(t: Track, step: Step): Track {
    if step.Call? && t.repeats >= 2 && !t.capable then t.(capable := true, mutes := t.mutes.(call := false)) else t
  }

  /** After a step that goes on: futile ones end the loop. */
  function Guarded(cfg: Config, step: Step, p: Pass, m: Meaning): Meaning {
    if m.exit.Some? then m
    else
      var t := Escalated(m.t, step);
      if FutileNow(cfg, t, p) then m.(exit := Some(Futile), t := t.(forced := true)) else m.(t := t)
  }

  function Exhausted(cfg: Config, t: Track): Meaning {
    if NeedsArtifact(cfg, t) then Meaning(PROTOCOL, Some(Stopped), t, None)
    else Meaning(OK, Some(OutOfSteps), t.(forced := true), None)
  }

  /** The model's answer was prepared, parsed and recorded, or why not. */
  function Readied(p: Pass): Status {
    if p.prepared != OK then p.prepared
    else if !p.newline || p.parsed.None? then PROTOCOL
    else p.recorded
  }

  /** Both mutes last for one pass only. */
  function Unmuted(t: Track): Track {
    t.(mutes := Mutes(false, false))
  }

  /** One pass of the loop. */
  function Passed(cfg: Config, t: Track, asked: seq<Question>, p: Pass): Meaning {
    if Spent(cfg, t, p) then Exhausted(cfg, t)
    else if Readied(p) != OK then Meaning(Readied(p), Some(Stopped), Unmuted(t), None)
    else
      var step := p.parsed.value;
      var m := Applied(cfg, Unmuted(t), asked, step, p, CallNow(cfg, t, p), ThinkNow(cfg, t));
      Guarded(cfg, step, p, Forgiven(step, m))
  }

  function Added(history: seq<Event>, event: Option<Event>): seq<Event> {
    if event.Some? then history + [event.value] else history
  }

  // ---------------------------------------------------------------- what a pass keeps

  /** What holds at every return. */
  ghost predicate Sane(cfg: Config, t: Track, history: seq<Event>) {
    && t.steps <= cfg.maxSteps
    && t.thinksRow <= Limit(cfg) && t.thinksRow == Row(history) && RowsBounded(history, Limit(cfg))
  }

  /** Between passes: a full row of THINK steps has muted THINK for the next pass. */
  predicate Muted(cfg: Config, t: Track) {
    cfg.thinkLimit > 0 && t.thinksRow == Limit(cfg) ==> t.mutes.think
  }

  /** What the event of a step says of the row of THINK steps. */
  predicate RowMoved(cfg: Config, t: Track, next: Track, event: Option<Event>) {
    && next.thinksRow == (if event.None? then t.thinksRow
                          else if !IsThink(event.value) then 0
                          else t.thinksRow + (if event.value.Thought? then 1 else 0))
    && next.thinksRow <= Limit(cfg)
  }

  /** What a decision leaves, whatever it was. */
  ghost predicate Fair(cfg: Config, t: Track, asked: seq<Question>, effect: Effect, m: Meaning) {
    && RowMoved(cfg, t, m.t, m.event) && m.t.steps == t.steps <= cfg.maxSteps && m.t.forced == t.forced
    && (m.event.Some? && m.event.value.Recalled? ==> Recallable(asked, m.event.value.question))
    && (m.exit.Some? ==> m.e == OK && m.exit.value in {Answered, Clarified, Hung})
    && (m.exit == Some(Answered) ==> !NeedsArtifact(cfg, m.t))
    && (m.exit == Some(Hung) ==> Hangs(cfg.normal, effect))
  }

  lemma DecisionIsFair(cfg: Config, t: Track, asked: seq<Question>, step: Step, p: Pass, callNow: bool, thinkNow: bool)
    requires t.thinksRow <= Limit(cfg) && (thinkNow ==> cfg.thinkLimit > 0 && t.thinksRow < Limit(cfg))
    requires t.steps <= cfg.maxSteps
    ensures var m := Decided(cfg, t, asked, step, p, callNow, thinkNow);
            && Fair(cfg, t, asked, p.effect, m)
            && ((m.e == OK && m.exit.None?) || step.Call? ==> Muted(cfg, m.t))
  {
  }

  /** What a pass leaves: THINK steps counted and within their row, only new questions, one step
    * more if it goes on. */
  ghost predicate Kept(cfg: Config, t: Track, asked: seq<Question>, effect: Effect, m: Meaning) {
    && RowMoved(cfg, t, m.t, m.event) && m.t.steps <= cfg.maxSteps
    && (m.event.Some? && m.event.value.Recalled? ==> Recallable(asked, m.event.value.question))
    && (m.exit.None? ==> m.e == OK && Muted(cfg, m.t) && m.t.steps == t.steps + 1)
    && (m.e != OK <==> m.exit == Some(Stopped))
    && (m.exit == Some(Hung) ==> Hangs(cfg.normal, effect))
    && (m.exit in {Some(Answered), Some(OutOfSteps)} ==> !NeedsArtifact(cfg, m.t))
    && m.t.forced == (t.forced || m.exit in {Some(OutOfSteps), Some(Futile)})
  }

  lemma GuardKeeps(cfg: Config, t: Track, asked: seq<Question>, step: Step, p: Pass, m: Meaning)
    requires Fair(cfg, t.(steps := t.steps + 1), asked, p.effect, m)
    requires (m.e == OK && m.exit.None?) || step.Call? ==> Muted(cfg, m.t)
    ensures Kept(cfg, t, asked, p.effect, Guarded(cfg, step, p, Forgiven(step, m)))
  {
  }

  lemma HaltKeeps(cfg: Config, t: Track, asked: seq<Question>, step: Step, p: Pass, m: Meaning)
    requires m.e in {CANCELLED, TIMEOUT} && m.exit.None? && m.t == t && m.event.None?
    requires t.thinksRow <= Limit(cfg) && t.steps < cfg.maxSteps
    ensures Kept(cfg, t, asked, p.effect, Guarded(cfg, step, p, Forgiven(step, m)))
  {
  }

  lemma AppliedKeeps(cfg: Config, t: Track, asked: seq<Question>, step: Step, p: Pass, callNow: bool, thinkNow: bool,
                     m: Meaning)
    requires t.thinksRow <= Limit(cfg) && (thinkNow ==> cfg.thinkLimit > 0 && t.thinksRow < Limit(cfg))
    requires t.steps < cfg.maxSteps && m == Applied(cfg, t, asked, step, p, callNow, thinkNow)
    ensures Kept(cfg, t, asked, p.effect, Guarded(cfg, step, p, Forgiven(step, m)))
  {
    if p.cancelled || p.late {
      HaltKeeps(cfg, t, asked, step, p, m);
    } else {
      DecisionIsFair(cfg, t.(steps := t.steps + 1), asked, step, p, callNow, thinkNow);
      GuardKeeps(cfg, t, asked, step, p, m);
    }
  }

  /** Whatever the model answers. */
  lemma PassKeeps(cfg: Config, t: Track, asked: seq<Question>, p: Pass)
    requires t.steps <= cfg.maxSteps && t.thinksRow <= Limit(cfg) && Muted(cfg, t)
    ensures Kept(cfg, t, asked, p.effect, Passed(cfg, t, asked, p))
  {
    if !Spent(cfg, t, p) && Readied(p) == OK {
      var step, callNow, thinkNow := p.parsed.value, CallNow(cfg, t, p), ThinkNow(cfg, t);
      var m := Applied(cfg, Unmuted(t), asked, step, p, callNow, thinkNow);
      AppliedKeeps(cfg, Unmuted(t), asked, step, p, callNow, thinkNow, m);
    }
  }

  /** So the history stays within its bounds. */
  lemma HistoryKeeps(cfg: Config, t: Track, asked: seq<Question>, effect: Effect, m: Meaning, history: seq<Event>)
    requires Sane(cfg, t, history) && asked == Recalls(history) && Distinct(asked) && |asked| <= RECALLS
    requires Kept(cfg, t, asked, effect, m)
    ensures var next, now := Added(history, m.event), Remembered(asked, m.event);
            Sane(cfg, m.t, next) && now == Recalls(next) && Distinct(now) && |now| <= RECALLS
  {
    if m.event.Some? {
      AppendEvent(history, m.event.value, Limit(cfg));
      RecallsKeep(m.event.value, asked, Recalls(history + [m.event.value]));
    }
  }

  lemma RecallsKeep(e: Event, asked: seq<Question>, after: seq<Question>)
    requires Distinct(asked) && |asked| <= RECALLS && (e.Recalled? ==> Recallable(asked, e.question))
    requires after == asked + (if e.Recalled? then [e.question] else [])
    ensures Remembered(asked, Some(e)) == after && Distinct(after) && |after| <= RECALLS
  {
    if e.Recalled? { DistinctGrows(asked, e.question); } else { assert after == asked; }
  }

  lemma DistinctGrows(asked: seq<Question>, question: Question)
    requires Distinct(asked) && question !in asked
    ensures Distinct(asked + [question])
  {
  }

  // ---------------------------------------------------------------- the guard against futile steps

  /** What a step adds to the futile steps in a row, unless a tool says so itself. */
  predicate Useful(cfg: Config, asked: seq<Question>, step: Step, thinkNow: bool) {
    match step
    case Discover => cfg.purpose.discover
    case Think => thinkNow
    case Recall(question) => Recallable(asked, question)
    case Open(found, readable) => found && readable
    case _ => false
  }

  /** The step ends neither the turn nor, by an error that is not forgiven, the loop. */
  predicate StepGoesOn(cfg: Config, p: Pass, step: Step, callNow: bool) {
    match step
    case Think | Recall(_) | Open(_, _) => true
    case Discover => cfg.purpose.discover ==> p.selected == OK
    case Call =>
      callNow ==> !Hangs(cfg.normal, p.effect)
                  && Reported(cfg.normal, p.effect.draft, p.effect.result) in {OK, PROTOCOL}
    case _ => false
  }

  /** The futile steps in a row after such a step; a tool action that was invalid is one more. */
  function FutileAfter(cfg: Config, futile: nat, asked: seq<Question>, p: Pass, step: Step, callNow: bool,
                       thinkNow: bool): nat {
    if step.Call? && callNow then
      p.effect.futile + (if Reported(cfg.normal, p.effect.draft, p.effect.result) == PROTOCOL then 1 else 0)
    else if Useful(cfg, asked, step, thinkNow) then 0
    else futile + 1
  }

  function MarksAfter(marks: Marks, p: Pass, step: Step, callNow: bool): Marks {
    if step.Call? && callNow then Marked(marks, p.effect) else marks
  }

  /** The step goes on, the second futile one in a row after a successful tool, with the artifact that
    * the turn requires still missing. */
  predicate StepForces(cfg: Config, futile: nat, before: Marks, asked: seq<Question>, p: Pass, step: Step,
                       callNow: bool, thinkNow: bool) {
    var marks := MarksAfter(before, p, step, callNow);
    && StepGoesOn(cfg, p, step, callNow)
    && FutileAfter(cfg, futile, asked, p, step, callNow, thinkNow) >= 2 && marks.seen
    && cfg.purpose.generates && !marks.written && !marks.blocked
  }

  /** Before the pass: there is such a step, and it will be applied. */
  predicate WillForce(cfg: Config, t: Track, asked: seq<Question>, p: Pass) {
    && !Spent(cfg, t, p) && Readied(p) == OK && !p.cancelled && !p.late
    && StepForces(cfg, t.futile, t.marks, asked, p, p.parsed.value, CallNow(cfg, t, p), ThinkNow(cfg, t))
  }

  /** A pass leaves the loop with an answer forced and the required artifact missing exactly when what
    * it meets is such: the guard against futile steps does not ask for the artifact. */
  lemma ForcedWithoutArtifact(cfg: Config, t: Track, asked: seq<Question>, p: Pass)
    ensures var m := Passed(cfg, t, asked, p);
            && (m.exit == Some(Futile) && NeedsArtifact(cfg, m.t) <==> WillForce(cfg, t, asked, p))
            && (!t.forced ==> (m.t.forced && NeedsArtifact(cfg, m.t) <==> WillForce(cfg, t, asked, p)))
  {
    if !Spent(cfg, t, p) && Readied(p) == OK {
      var step, callNow, thinkNow := p.parsed.value, CallNow(cfg, t, p), ThinkNow(cfg, t);
      AppliedForces(cfg, Unmuted(t), asked, p, step, callNow, thinkNow, t.futile, t.marks);
    }
  }

  lemma AppliedForces(cfg: Config, t: Track, asked: seq<Question>, p: Pass, step: Step, callNow: bool, thinkNow: bool,
                      futile: nat, marks: Marks)
    requires t.steps < cfg.maxSteps && t.futile == futile && t.marks == marks
    ensures var g := Guarded(cfg, step, p, Forgiven(step, Applied(cfg, t, asked, step, p, callNow, thinkNow)));
            && (g.exit == Some(Futile) && NeedsArtifact(cfg, g.t)
                <==> !p.cancelled && !p.late && StepForces(cfg, futile, marks, asked, p, step, callNow, thinkNow))
            && (!t.forced ==> (g.t.forced <==> g.exit == Some(Futile)))
  {
    var m := Forgiven(step, Applied(cfg, t, asked, step, p, callNow, thinkNow));
    if !p.cancelled && !p.late {
      StepLeaves(cfg, t.(steps := t.steps + 1), asked, p, step, callNow, thinkNow, futile, marks, m);
    }
    GuardForces(cfg, step, p, m);
  }

  /** What a decision leaves for the guard. */
  lemma StepLeaves(cfg: Config, t: Track, asked: seq<Question>, p: Pass, step: Step, callNow: bool, thinkNow: bool,
                   futile: nat, marks: Marks, m: Meaning)
    requires t.futile == futile && t.marks == marks
    requires m == Forgiven(step, Decided(cfg, t, asked, step, p, callNow, thinkNow))
    ensures (m.exit.None? <==> StepGoesOn(cfg, p, step, callNow)) && m.t.forced == t.forced
    ensures m.exit.Some? ==> m.exit.value in {Answered, Clarified, Hung, Stopped}
    ensures m.exit.None? ==>
              && m.t.futile == FutileAfter(cfg, futile, asked, p, step, callNow, thinkNow)
              && m.t.marks == MarksAfter(marks, p, step, callNow)
  {
  }

  lemma GuardForces(cfg: Config, step: Step, p: Pass, m: Meaning)
    requires m.exit.Some? ==> m.exit.value in {Answered, Clarified, Hung, Stopped}
    ensures var g := Guarded(cfg, step, p, m);
            && (g.exit == Some(Futile) && NeedsArtifact(cfg, g.t)
                <==> m.exit.None? && m.t.futile >= 2 && m.t.marks.seen && NeedsArtifact(cfg, m.t))
            && (!m.t.forced ==> (g.t.forced <==> g.exit == Some(Futile)))
  {
  }

  function Inert(): Effect {
    Effect(None, OK, 0, 0, 0, false, false, false, false)
  }

  function Asks(step: Step, effect: Effect): Pass {
    Pass(false, false, OK, true, Some(step), OK, false, false, true, OK, false, effect)
  }

  /** One such turn: a tool succeeds, then two ranges that cannot be read are opened. */
  lemma ForcedOnce(cfg: Config, t: Track)
    requires cfg.purpose.generates && cfg.purpose.discover && cfg.maxSteps >= 3
    requires t.steps == 0 && t.cycles == 0 && !t.mutes.call && !t.marks.written && !t.marks.blocked && !t.forced
    ensures var call, open := Asks(Step.Call, Inert().(seen := true)), Asks(Open(true, false), Inert());
            var first := Passed(cfg, t, [], call);
            var second := Passed(cfg, first.t, [], open);
            var third := Passed(cfg, second.t, [], open);
            && first.exit.None? && second.exit.None? && third.exit == Some(Futile)
            && third.t.forced && NeedsArtifact(cfg, third.t)
  {
  }

  // ---------------------------------------------------------------- the controller

  class Controller {
    const turn: Turn
    const cfg: Config
    var t: Track
    /** The questions recalled this turn. */
    const recallKeys: array<Question>
    var recallKeysN: nat
    var recallsTotal: nat
    ghost var history: seq<Event>

    ghost predicate Keys()
      reads this, recallKeys
    {
      recallKeys.Length == RECALLS && recallKeysN == recallsTotal <= RECALLS
    }

    function Asked(): seq<Question>
      reads this, recallKeys
      requires recallKeysN <= recallKeys.Length
    {
      recallKeys[..recallKeysN]
    }

    ghost predicate Returned()
      reads this, turn, recallKeys
    {
      && Keys() && turn.phase == ACTION
      && Sane(cfg, t, history) && Asked() == Recalls(history) && Distinct(Asked())
    }

    ghost predicate Valid()
      reads this, turn, recallKeys
    {
      Returned() && Muted(cfg, t)
    }

    constructor (cfg: Config)
      ensures Valid() && t.steps == 0 && !t.forced && this.cfg == cfg && fresh(turn) && fresh(recallKeys)
    {
      turn := new Turn(Account(0, 0, 0, Operations.State(Consumption.Fresh(0).usage, false, [], 0)));
      this.cfg := cfg;
      t := Track(0, 0, 0, 0, 0, Mutes(false, false), Marks(false, false, false), false, cfg.purpose.Capable());
      recallKeys := new Question[RECALLS](_ => []);
      recallKeysN, recallsTotal, history := 0, 0, [];
    }

    method Think(thinkNow: bool)
      modifies this`t
      ensures t == Thinking(cfg, old(t), thinkNow)
    {
      if !thinkNow {
        t := t.(futile := t.futile + 1, mutes := t.mutes.(think := true));
      } else {
        t := t.(thinksRow := t.thinksRow + 1, futile := 0);
        if t.thinksRow >= cfg.thinkLimit { t := t.(mutes := t.mutes.(think := true)); }
      }
    }

    method Seen(question: Question) returns (seen: bool)
      requires Keys()
      ensures seen == (question in Asked())
    {
      for i := 0 to recallKeysN
        invariant question !in recallKeys[..i]
      {
        if recallKeys[i] == question { return true; }
      }
      return false;
    }

    /** A question already asked this turn, or a fourth one, adds nothing. */
    method Recall(question: Question) returns (event: Event)
      requires Keys()
      modifies this`t, this`recallKeysN, this`recallsTotal, recallKeys
      ensures Keys() && Meaning(OK, None, t, Some(event)) == RecallMeans(old(t), old(Asked()), question)
      ensures Asked() == Remembered(old(Asked()), Some(event))
    {
      t := t.(thinksRow := 0);
      var seen := Seen(question);
      if seen || recallsTotal >= RECALLS {
        t := t.(futile := t.futile + 1);
        return Other;
      }
      t := t.(futile := 0);
      Store(question);
      return Recalled(question);
    }

    method Store(question: Question)
      requires Keys() && recallKeysN < RECALLS
      modifies this`recallKeysN, this`recallsTotal, recallKeys
      ensures Keys() && Asked() == old(Asked()) + [question]
    {
      recallKeys[recallKeysN] := question;
      recallKeysN := recallKeysN + 1;
      recallsTotal := recallsTotal + 1;
    }

    method Act(useful: bool)
      modifies this`t
      ensures t == Acted(old(t), useful)
    {
      t := t.(thinksRow := 0);
      t := t.(futile := if useful then 0 else t.futile + 1);
    }

    /** The draft and the tool's status; whatever they do, the phase is the action phase again. */
    method Report(draft: Option<Drafting>, result: Status) returns (e: Status, hung: bool)
      requires turn.phase == ACTION
      modifies turn
      ensures turn.phase == ACTION
      ensures hung == (draft.Some? && Written(cfg.normal, draft.value).result.Running?)
      ensures !hung ==> e == Reported(cfg.normal, draft, result)
    {
      if draft.Some? {
        turn.account := draft.value.account;
        var content := turn.FileContent(cfg.normal, draft.value.rounds);
        if content.Error? { return content.e, false; }
        if content.Running? { return OK, true; }
      }
      return result, false;
    }

    method CallTool(effect: Effect, callNow: bool) returns (e: Status, exit: Option<Exit>)
      requires turn.phase == ACTION
      modifies turn, this`t
      ensures turn.phase == ACTION
      ensures Meaning(e, exit, t, Some(Other)) == CallMeans(cfg.normal, old(t), effect, callNow)
    {
      t := t.(thinksRow := 0);
      if !callNow {
        t := t.(futile := t.futile + 1);
        return OK, None;
      }
      var hung;
      e, hung := Report(effect.draft, effect.result);
      if hung { return OK, Some(Hung); }
      t := Ran(t, effect);
      exit := None;
    }

    method Decide(step: Step, p: Pass, callNow: bool, thinkNow: bool)
      returns (e: Status, exit: Option<Exit>, event: Option<Event>)
      requires Keys() && turn.phase == ACTION
      modifies this`t, this`recallKeysN, this`recallsTotal, turn, recallKeys
      ensures Keys() && turn.phase == ACTION && Asked() == Remembered(old(Asked()), event)
      ensures Meaning(e, exit, t, event) == Decided(cfg, old(t), old(Asked()), step, p, callNow, thinkNow)
    {
      e, exit, event := OK, None, Some(Other);
      match step
      case Answer =>
        if NeedsArtifact(cfg, t) { return PROTOCOL, None, None; }
        return OK, Some(Answered), None;
      case Clarify =>
        return OK, Some(Clarified), None;
      case Discover =>
        Act(cfg.purpose.discover);
        if cfg.purpose.discover { e := p.selected; }
      case Think =>
        Think(thinkNow);
        event := Some(if thinkNow then Thought else ThoughtRefused);
      case Recall(question) =>
        var recalled := Recall(question);
        event := Some(recalled);
      case Open(found, readable) =>
        Act(found && readable);
      case Call =>
        e, exit := CallTool(p.effect, callNow);
      case Unknown =>
        return PROTOCOL, None, None;
    }

    /** Apply one decision. A decision that is applied at all counts as a step. */
    method Apply(step: Step, p: Pass, callNow: bool, thinkNow: bool)
      returns (e: Status, exit: Option<Exit>, event: Option<Event>)
      requires Keys() && turn.phase == ACTION
      modifies this`t, this`recallKeysN, this`recallsTotal, turn, recallKeys
      ensures Keys() && turn.phase == ACTION && Asked() == Remembered(old(Asked()), event)
      ensures Meaning(e, exit, t, event) == Applied(cfg, old(t), old(Asked()), step, p, callNow, thinkNow)
    {
      if turn.phase != ACTION {
        assert false;
        return PROTOCOL, None, None;
      }
      if p.cancelled { return CANCELLED, None, None; }
      if p.late { return TIMEOUT, None, None; }
      if t.steps >= cfg.maxSteps { return LIMIT, None, None; }
      t := t.(steps := t.steps + 1);
      e, exit, event := Decide(step, p, callNow, thinkNow);
    }

    /** After a decision: forgive an invalid tool action, escalate repeated calls, and end the loop
      * on a failure or on futile steps. */
    method Settle(step: Step, p: Pass, e0: Status, exit0: Option<Exit>, ghost event: Option<Event>)
      returns (e: Status, exit: Option<Exit>)
      modifies this`t
      ensures Meaning(e, exit, t, event)
              == Guarded(cfg, step, p, Forgiven(step, Meaning(e0, exit0, old(t), event)))
    {
      e, exit := e0, exit0;
      if e == PROTOCOL && step.Call? {
        t := t.(capable := true, futile := t.futile + 1);
        e := OK;
      }
      if e != OK { return e, Some(Stopped); }
      if exit.Some? { return; }
      if step.Call? && t.repeats >= 2 && !t.capable {
        t := t.(capable := true, mutes := t.mutes.(call := false));
      }
      if FutileNow(cfg, t, p) {
        t := t.(forced := true);
        exit := Some(Futile);
      }
    }

    method OnePass(p: Pass) returns (e: Status, exit: Option<Exit>, event: Option<Event>)
      requires Keys() && turn.phase == ACTION
      modifies this`t, this`recallKeysN, this`recallsTotal, turn, recallKeys
      ensures Keys() && turn.phase == ACTION && Asked() == Remembered(old(Asked()), event)
      ensures Meaning(e, exit, t, event) == Passed(cfg, old(t), old(Asked()), p)
    {
      if Spent(cfg, t, p) {
        if NeedsArtifact(cfg, t) { return PROTOCOL, Some(Stopped), None; }
        t := t.(forced := true);
        return OK, Some(OutOfSteps), None;
      }
      var callNow, thinkNow := CallNow(cfg, t, p), ThinkNow(cfg, t);
      t := t.(mutes := Mutes(false, false));
      if p.prepared != OK { return p.prepared, Some(Stopped), None; }
      if !p.newline || p.parsed.None? { return PROTOCOL, Some(Stopped), None; }
      if p.recorded != OK { return p.recorded, Some(Stopped), None; }
      e, exit, event := Apply(p.parsed.value, p, callNow, thinkNow);
      e, exit := Settle(p.parsed.value, p, e, exit, event);
    }

    /** One pass of the loop, and what it adds to the history. */
    method RunPass(p: Pass) returns (e: Status, exit: Option<Exit>, event: Option<Event>)
      requires Valid()
      modifies this, turn, recallKeys
      ensures Returned() && (exit.None? ==> Valid())
      ensures Meaning(e, exit, t, event) == Passed(cfg, old(t), old(Asked()), p)
      ensures history == Added(old(history), event)
      ensures Kept(cfg, old(t), old(Asked()), p.effect, Meaning(e, exit, t, event))
    {
      PassKeeps(cfg, t, Asked(), p);
      e, exit, event := OnePass(p);
      Record(old(t), old(Asked()), p.effect, Meaning(e, exit, t, event));
    }

    ghost method Record(before: Track, asked: seq<Question>, effect: Effect, m: Meaning)
      requires Keys() && turn.phase == ACTION && m.t == t && Asked() == Remembered(asked, m.event)
      requires Sane(cfg, before, history) && asked == Recalls(history) && Distinct(asked) && |asked| <= RECALLS
      requires Kept(cfg, before, asked, effect, m)
      modifies this`history
      ensures Returned() && history == Added(old(history), m.event)
    {
      HistoryKeeps(cfg, before, asked, effect, m, history);
      history := Added(history, m.event);
    }

    /** The whole loop, for any model. As many passes as there are steps left, and one more to
      * notice that none is left, are always enough, unless one of them is hung in a draft. */
    method Run(passes: seq<Pass>) returns (e: Status, exit: Exit, used: nat)
      requires Valid() && |passes| > cfg.maxSteps - t.steps
      modifies this, turn, recallKeys
      ensures Returned() && used <= cfg.maxSteps - old(t).steps + 1
      ensures e == OK <==> exit != Stopped
      ensures exit == Hung ==> 0 < used <= |passes| && Hangs(cfg.normal, passes[used - 1].effect)
      ensures exit == Answered || exit == OutOfSteps ==> !NeedsArtifact(cfg, t)
      ensures t.forced == (old(t).forced || exit == OutOfSteps || exit == Futile)
    {
      used := 0;
      while !passes[used].stop
        invariant Valid() && used == t.steps - old(t).steps && t.steps >= old(t).steps && t.forced == old(t).forced
        decreases cfg.maxSteps - t.steps
      {
        var p := passes[used];
        used := used + 1;
        var left, event;
        e, left, event := RunPass(p);
        if left.Some? { return e, left.value, used; }
      }
      return CANCELLED, Stopped, used;
    }
  }

  // ---------------------------------------------------------------- the whole turn

  /** With a session budget the call's draft reports a token for each round that is cut off, and
    * has as many rounds as the session has tokens left. */
  predicate Talking(normal: Normal, effect: Effect) {
    effect.draft.Some? ==>
      var a, rounds := effect.draft.value.account, effect.draft.value.rounds;
      && a.sessionTokens > 0 && rounds != [] && |rounds| >= a.sessionTokens - a.spent - a.gtAux
      && Quiet(normal, a, [], rounds) == 0
  }

  lemma TalkingNeverHangs(normal: Normal, effect: Effect)
    requires Talking(normal, effect)
    ensures !Hangs(normal, effect)
  {
    if effect.draft.Some? {
      TalkingDraftEnds(normal, effect.draft.value.account, [], effect.draft.value.rounds);
    }
  }

  /** A provider that is cut off every time hangs a call exactly when its first reservation is admitted,
    * its first reply has some text, and what the admitted calls use is within both budgets. */
  lemma HangsIff(normal: Normal, effect: Effect)
    requires effect.draft.Some? && effect.draft.value.rounds != []
    requires var s := effect.draft.value.account.engine; Steady(s) && AllCut(effect.draft.value.rounds, s.usage.utcDay)
    ensures var a, rounds := effect.draft.value.account, effect.draft.value.rounds;
            Hangs(normal, effect) <==> Starts(a, [], rounds[0]) && !UsedUp(a, Walk(a, At(a), rounds))
  {
    RunsOnIff(normal, effect.draft.value.account, [], effect.draft.value.rounds);
  }

  /** A turn in the plan mode: the loop, then the gate before the response phase. Whatever the model
    * does, the loop is left within its steps and one pass more, unless a pass hangs in a draft; and
    * the response phase is entered only when no artifact is missing or the user is asked back. */
  method RunTurn(cfg: Config, passes: seq<Pass>, cancelled: bool)
    returns (e: Status, exit: Exit, used: nat, phase: Phase, missing: bool, ghost history: seq<Event>)
    requires |passes| > cfg.maxSteps
    ensures used <= cfg.maxSteps + 1
    ensures exit == Hung ==> 0 < used <= |passes| && Hangs(cfg.normal, passes[used - 1].effect)
    ensures (forall p :: p in passes ==> Talking(cfg.normal, p.effect)) ==> exit != Hung
    ensures RowsBounded(history, Limit(cfg))
    ensures |Recalls(history)| <= RECALLS && Distinct(Recalls(history))
    ensures exit in {Answered, OutOfSteps} ==> !missing
    ensures phase == RESPONSE
            <==> exit == Clarified || (exit in {Answered, OutOfSteps, Futile} && !cancelled && !missing)
    ensures exit == Futile && missing && !cancelled ==> e == PROTOCOL
    ensures e == OK && exit != Hung ==> phase == RESPONSE
  {
    var c := new Controller(cfg);
    e, exit, used := c.Run(passes);
    history := c.history;
    missing := NeedsArtifact(cfg, c.t);
    if exit == Hung {
      if forall p :: p in passes ==> Talking(cfg.normal, p.effect) {
        TalkingNeverHangs(cfg.normal, passes[used - 1].effect);
        assert false;
      }
      return e, exit, used, c.turn.phase, missing, history;
    }
    if e == OK {
      if exit != Clarified && !cancelled {
        if missing { return PROTOCOL, exit, used, c.turn.phase, missing, history; }
        c.turn.phase := RESPONSE;
      }
      if exit == Clarified { c.turn.phase := RESPONSE; }
      if cancelled { e := CANCELLED; }
    }
    phase := c.turn.phase;
  }
}
