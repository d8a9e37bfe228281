/**
 The per-wake protocol (wrap/wake.go): handleWake as an imperative method over an environment that may
 answer every call in any way at all, proved to be a run of an explicit automaton, and the wake contract
 proved of every run of that automaton. Module Engines interleaves many copies of the same automaton.
*/
module WakeProtocol {
  import opened Wrappers
  import opened Correlate

  datatype WakeKind = Unset | MentionWake | TopicWake | ScheduleWake | SubjectWake

  datatype Wake = Wake(topic: string, opId: OpId, author: string, kind: WakeKind, body: string)

  datatype Config = Config(persona: string, retries: int, budget: Budget, unbudgeted: bool, instructed: bool)

  datatype HarnessResult = HarnessResult(text: string, ok: bool, detail: string)

  /** The values the prompt template is filled from. */
  datatype Ask = Ask(persona: string, topic: string, author: string, opId: OpId, body: string, kind: WakeKind,
      instructions: string)

  datatype Stage = ReadStage | InstructionStage | PostStage | PauseStage

  datatype WakeResult =
    | Answered | SelfReported | AlreadyAnswered | SelfSkipped
    | Refused(why: Verdict)
    | Failed(stage: Stage)

  /** What a wake posts: the harness's text, or the fixed sentence naming the last failure and the number
      of attempts. */
  datatype Body = Reply(text: string) | SelfReport(detail: string, attempts: int)

  /** One exchange with the environment, the request together with what came back. */
  datatype Call =
    | Read(topic: string, view: Option<seq<Turn>>)
    | Clock(now: int)
    | Materialise(text: Option<string>)
    | Invoke(attempt: int, ask: Ask, result: HarnessResult)
    | Post(topic: string, body: Body, taps: seq<string>, opId: OpId, ok: bool)
    | Pause(elapsed: bool)

  /** Where a wake stands between two calls. `seen` is the last view read. */
  datatype Phase =
    | Opening
    | Admitting(seen: seq<Turn>)
    | Preparing(seen: seq<Turn>)
    | Running(attempt: int, seen: seq<Turn>, ask: Ask)
    | Checking(attempt: int, seen: seq<Turn>, ask: Ask, run: HarnessResult)
    | Pausing(attempt: int, seen: seq<Turn>, ask: Ask)
    | Posting(seen: seq<Turn>, body: Body, taps: seq<string>, report: bool)
    | Done(outcome: WakeResult)

  function OutcomeId(cfg: Config, w: Wake): OpId { WakeOpID(w.opId, cfg.persona) }

  function EffectiveKind(k: WakeKind): WakeKind { if k.Unset? then MentionWake else k }

  function TriggerTurn(view: seq<Turn>, w: Wake): Turn {
    var a := Anchor(view, w.opId);
    if a.Some? then a.value else Turn(w.opId, w.author, "", "", 0)
  }

  function AskFor(cfg: Config, w: Wake, view: seq<Turn>, instructions: string): Ask {
    var a := Anchor(view, w.opId);
    var anchored := if a.Some? then a.value.body else "";
    Ask(cfg.persona, w.topic, w.author, w.opId, if anchored == "" then w.body else anchored,
        EffectiveKind(w.kind), instructions)
  }

  function Taps(w: Wake): seq<string> { if w.author != "" then [w.author] else [] }

  /*** The automaton ***/

  function Start(cfg: Config, w: Wake): Phase {
    if w.author != "" && w.author == cfg.persona then Done(SelfSkipped) else Opening
  }

  function Attempt(cfg: Config, w: Wake, attempt: int, seen: seq<Turn>, ask: Ask, detail: string): Phase {
    if attempt <= cfg.retries then Running(attempt, seen, ask)
    else Posting(seen, SelfReport(detail, cfg.retries), Taps(w), true)
  }

  function Admit(cfg: Config, w: Wake, seen: seq<Turn>): Phase {
    if cfg.instructed then Preparing(seen) else Attempt(cfg, w, 1, seen, AskFor(cfg, w, seen, ""), "")
  }

  function AfterFirstRead(cfg: Config, w: Wake, view: seq<Turn>): Phase {
    if OutcomeId(cfg, w) in Ids(view) then Done(AlreadyAnswered)
    else if cfg.unbudgeted then Admit(cfg, w, view)
    else Admitting(view)
  }

  function AfterClock(cfg: Config, w: Wake, seen: seq<Turn>, now: int): Phase {
    var v := Decide(cfg.budget, seen, TriggerTurn(seen, w), cfg.persona, now);
    if v.Admitted? then Admit(cfg, w, seen) else Done(Refused(v))
  }

  function AfterCheck(cfg: Config, w: Wake, ph: Phase, view: seq<Turn>): Phase
    requires ph.Checking?
  {
    if FirstNewOwn(ph.seen, view, cfg.persona).Some? then Done(Answered)
    else if ph.run.ok then Posting(view, Reply(ph.run.text), [], false)
    else if ph.attempt < cfg.retries then Pausing(ph.attempt, view, ph.ask)
    else Posting(view, SelfReport(ph.run.detail, cfg.retries), Taps(w), true)
  }

  /** One step; None when the call is not the one the protocol makes in that phase. */
  function Next(cfg: Config, w: Wake, ph: Phase, c: Call): Option<Phase> {
    match (ph, c)
    case (Opening, Read(topic, view)) =>
      if topic != w.topic then None
      else Some(if view.None? then Done(Failed(ReadStage)) else AfterFirstRead(cfg, w, view.value))
    case (Admitting(seen), Clock(now)) => Some(AfterClock(cfg, w, seen, now))
    case (Preparing(seen), Materialise(text)) =>
      Some(if text.None? then Done(Failed(InstructionStage))
           else Attempt(cfg, w, 1, seen, AskFor(cfg, w, seen, text.value), ""))
    case (Running(attempt, seen, ask), Invoke(n, a, result)) =>
      if n != attempt || a != ask then None else Some(Checking(attempt, seen, ask, result))
    case (Checking(_, _, _, _), Read(topic, view)) =>
      if topic != w.topic then None
      else Some(if view.None? then Done(Failed(ReadStage)) else AfterCheck(cfg, w, ph, view.value))
    case (Pausing(attempt, seen, ask), Pause(elapsed)) =>
      Some(if elapsed then Running(attempt + 1, seen, ask) else Done(Failed(PauseStage)))
    case (Posting(_, body, taps, report), Post(topic, b, t, id, ok)) =>
      if topic != w.topic || b != body || t != taps || id != OutcomeId(cfg, w) then None
      else Some(if !ok then Done(Failed(PostStage)) else if report then Done(SelfReported) else Done(Answered))
    case _ => None
  }

  function Run(cfg: Config, w: Wake, calls: seq<Call>): Option<Phase> {
    if calls == [] then Some(Start(cfg, w))
    else Follow(cfg, w, Run(cfg, w, calls[..|calls| - 1]), calls[|calls| - 1])
  }

  function Follow(cfg: Config, w: Wake, ph: Option<Phase>, c: Call): Option<Phase> {
    if ph.None? then None else Next(cfg, w, ph.value, c)
  }

  /*** The imperative protocol ***/

  /** The realm, the harness, the clock and the context, answering arbitrarily while one wake is handled.
      `calls` is the trace of that wake, `phase` where the automaton stands after it. */
  class Environment {
    ghost const cfg: Config
    ghost const wake: Wake
    ghost var calls: seq<Call>
    ghost var phase: Option<Phase>

    ghost predicate Valid() reads this { phase == Run(cfg, wake, calls) }

    constructor (ghost cfg: Config, ghost wake: Wake)
      ensures this.cfg == cfg && this.wake == wake && calls == [] && Valid()
      ensures phase == Some(Start(cfg, wake))
    {
      this.cfg, this.wake, this.calls, this.phase := cfg, wake, [], Some(Start(cfg, wake));
    }

    ghost method Record(c: Call)
      requires Valid()
      modifies this
      ensures Valid() && calls == old(calls) + [c] && phase == Follow(cfg, wake, old(phase), c)
    {
      assert (calls + [c])[..|calls|] == calls;
      calls, phase := calls + [c], Follow(cfg, wake, phase, c);
    }

    method Read(topic: string) returns (view: Option<seq<Turn>>)
      requires Valid()
      modifies this
      ensures Valid() && calls == old(calls) + [Call.Read(topic, view)]
      ensures phase == Follow(cfg, wake, old(phase), Call.Read(topic, view))
    {
      view := *;
      Record(Call.Read(topic, view));
    }

    method Clock() returns (now: int)
      requires Valid()
      modifies this
      ensures Valid() && calls == old(calls) + [Call.Clock(now)]
      ensures phase == Follow(cfg, wake, old(phase), Call.Clock(now))
    {
      now := *;
      Record(Call.Clock(now));
    }

    method Materialise() returns (text: Option<string>)
      requires Valid()
      modifies this
      ensures Valid() && calls == old(calls) + [Call.Materialise(text)]
      ensures phase == Follow(cfg, wake, old(phase), Call.Materialise(text))
    {
      text := *;
      Record(Call.Materialise(text));
    }

    method Invoke(attempt: int, ask: Ask) returns (result: HarnessResult)
      requires Valid()
      modifies this
      ensures Valid() && calls == old(calls) + [Call.Invoke(attempt, ask, result)]
      ensures phase == Follow(cfg, wake, old(phase), Call.Invoke(attempt, ask, result))
    {
      result := *;
      Record(Call.Invoke(attempt, ask, result));
    }

    method Post(topic: string, body: Body, taps: seq<string>, opId: OpId) returns (ok: bool)
      requires Valid()
      modifies this
      ensures Valid() && calls == old(calls) + [Call.Post(topic, body, taps, opId, ok)]
      ensures phase == Follow(cfg, wake, old(phase), Call.Post(topic, body, taps, opId, ok))
    {
      ok := *;
      Record(Call.Post(topic, body, taps, opId, ok));
    }

    method Pause() returns (elapsed: bool)
      requires Valid()
      modifies this
      ensures Valid() && calls == old(calls) + [Call.Pause(elapsed)]
      ensures phase == Follow(cfg, wake, old(phase), Call.Pause(elapsed))
    {
      elapsed := *;
      Record(Call.Pause(elapsed));
    }
  }

  /** One harness run and the read that follows it. */
  method RunAndRead(cfg: Config, env: Environment, w: Wake, attempt: int, before: seq<Turn>, ask: Ask)
    returns (res: HarnessResult, after: Option<seq<Turn>>)
    requires env.cfg == cfg && env.wake == w && env.Valid() && env.phase == Some(Running(attempt, before, ask))
    modifies env
    ensures env.Valid() && env.phase
            == Some(if after.None? then Done(Failed(ReadStage))
                    else AfterCheck(cfg, w, Checking(attempt, before, ask, res), after.value))
  {
    res := env.Invoke(attempt, ask);
    after := env.Read(w.topic);
  }

  /** The discharge half of handleWake: the attempt loop and the self-report. */
  method Discharge(cfg: Config, env: Environment, w: Wake, first: seq<Turn>, ask: Ask)
    returns (result: WakeResult)
    requires env.cfg == cfg && env.wake == w && env.Valid() && env.phase == Some(Attempt(cfg, w, 1, first, ask, ""))
    modifies env
    ensures env.Valid() && env.phase == Some(Done(result))
  {
    var wakeId := WakeOpID(w.opId, cfg.persona);
    var before := first;
    var taps := if w.author != "" then [w.author] else [];
    var lastDetail := "";
    var attempt := 1;
    while attempt <= cfg.retries
      invariant 1 <= attempt
      invariant env.Valid() && env.phase == Some(Attempt(cfg, w, attempt, before, ask, lastDetail))
      decreases cfg.retries - attempt
    {
      var res, again := RunAndRead(cfg, env, w, attempt, before, ask);
      if again.None? { return Failed(ReadStage); }
      var after := again.value;
      var own := PostedDuringRun(before, after, cfg.persona);
      if own.Some? { return Answered; }
      if res.ok {
        var posted := env.Post(w.topic, Reply(res.text), [], wakeId);
        return if posted then Answered else Failed(PostStage);
      }
      lastDetail := res.detail;
      before := after;
      if attempt < cfg.retries {
        var elapsed := env.Pause();
        if !elapsed { return Failed(PauseStage); }
      }
      attempt := attempt + 1;
    }

    var report := SelfReport(lastDetail, cfg.retries);
    var posted := env.Post(w.topic, report, taps, wakeId);
    return if posted then SelfReported else Failed(PostStage);
  }

  /** The admission half of handleWake, in the source's order: self-skip, existence of the outcome,
      budget. */
  method Admission(cfg: Config, env: Environment, w: Wake) returns (stop: Option<WakeResult>, before: seq<Turn>)
    requires env.cfg == cfg && env.wake == w && env.Valid() && env.calls == []
    modifies env
    ensures env.Valid() && env.phase == Some(if stop.Some? then Done(stop.value) else Admit(cfg, w, before))
  {
    before := [];
    if w.author != "" && w.author == cfg.persona { return Some(SelfSkipped), []; }
    var first := env.Read(w.topic);
    if first.None? { return Some(Failed(ReadStage)), []; }
    before := first.value;
    var answered := ContainsOp(before, WakeOpID(w.opId, cfg.persona));
    if answered { return Some(AlreadyAnswered), before; }
    if !cfg.unbudgeted {
      var trigger := Turn(w.opId, w.author, "", "", 0);
      var anchor := FindAnchor(before, w.opId);
      if anchor.Some? { trigger := anchor.value; }
      var now := env.Clock();
      var verdict := BudgetDecision(cfg.budget, before, trigger, cfg.persona, now);
      if !verdict.Admitted? { return Some(Refused(verdict)), before; }
    }
    return None, before;
  }

  /** handleWake: every call it makes, in order and with its arguments, and the result it returns are
      those of a completed run of the automaton. */
  method HandleWake(cfg: Config, env: Environment, w: Wake) returns (result: WakeResult)
    requires env.cfg == cfg && env.wake == w && env.Valid() && env.calls == []
    modifies env
    ensures env.Valid() && env.phase == Some(Done(result))
    ensures Run(cfg, w, env.calls) == Some(Done(result))
  {
    var stop, before := Admission(cfg, env, w);
    if stop.Some? { return stop.value; }

    var instructions := "";
    if cfg.instructed {
      var text := env.Materialise();
      if text.None? { return Failed(InstructionStage); }
      instructions := text.value;
    }
    var body := AnchorBody(before, w.opId);
    if body == "" { body := w.body; }
    var ask := Ask(cfg.persona, w.topic, w.author, w.opId, body, EffectiveKind(w.kind), instructions);
    result := Discharge(cfg, env, w, before, ask);
  }

  /*** The wake contract ***/

  function Posts(tr: seq<Call>): nat {
    if tr == [] then 0 else Posts(tr[..|tr| - 1]) + (if tr[|tr| - 1].Post? then 1 else 0)
  }

  function Invokes(tr: seq<Call>): nat {
    if tr == [] then 0 else Invokes(tr[..|tr| - 1]) + (if tr[|tr| - 1].Invoke? then 1 else 0)
  }

  function Allowed(cfg: Config): nat { if cfg.retries < 0 then 0 else cfg.retries }

  predicate Shows(c: Call) { c.Read? && c.view.Some? }

  /** What the first call read. Every wake that is not self-skipped starts with a read. */
  function FirstView(tr: seq<Call>): seq<Turn> {
    if tr != [] && Shows(tr[0]) then tr[0].view.value else []
  }

  function LastView(tr: seq<Call>): seq<Turn> {
    if tr == [] then []
    else if Shows(tr[|tr| - 1]) then tr[|tr| - 1].view.value
    else LastView(tr[..|tr| - 1])
  }

  /** The reads are those of an append-only record: each view extends the last one, and ids are unique. */
  ghost predicate ReadsGrow(tr: seq<Call>) {
    if tr == [] then true
    else
      && ReadsGrow(tr[..|tr| - 1])
      && (Shows(tr[|tr| - 1]) ==> LastView(tr[..|tr| - 1]) <= LastView(tr) && UniqueIds(LastView(tr)))
  }

  /** An own turn the first read did not show is in the last one. */
  ghost predicate OwnTurnAppeared(cfg: Config, tr: seq<Call>) {
    exists t :: t in LastView(tr) && NewOwn(t, FirstView(tr), cfg.persona)
  }

  ghost predicate AllRunsFailed(tr: seq<Call>) {
    forall i | 0 <= i < |tr| && tr[i].Invoke? :: !tr[i].result.ok
  }

  /** Every post went to the wake's topic under its one deterministic id. */
  ghost predicate PostsUnder(tr: seq<Call>, topic: string, id: OpId) {
    forall i | 0 <= i < |tr| && tr[i].Post? :: tr[i].topic == topic && tr[i].opId == id
  }

  predicate InFlight(ph: Phase) { !ph.Opening? && !ph.Done? }

  predicate InAttempt(ph: Phase) { ph.Running? || ph.Checking? || ph.Pausing? }

  ghost predicate PostHistory(cfg: Config, w: Wake, tr: seq<Call>, ph: Phase) {
    && PostsUnder(tr, w.topic, OutcomeId(cfg, w))
    && Posts(tr) <= 1
    && (ph.Done? && ph.outcome.SelfReported? ==> Posts(tr) == 1)
    && (ph.Done? && ph.outcome.Failed? && ph.outcome.stage.PostStage? ==> Posts(tr) == 1)
    && (Posts(tr) == 1 ==> ph.Done? && (ph.outcome.Answered? || ph.outcome.SelfReported?
                                        || (ph.outcome.Failed? && ph.outcome.stage.PostStage?)))
  }

  lemma PostHistoryStep(cfg: Config, w: Wake, tr: seq<Call>, ph: Phase, c: Call)
    requires PostHistory(cfg, w, tr, ph) && Next(cfg, w, ph, c).Some?
    ensures PostHistory(cfg, w, tr + [c], Next(cfg, w, ph, c).value)
  {
    assert (tr + [c])[..|tr|] == tr;
  }

  ghost predicate RunHistory(cfg: Config, w: Wake, tr: seq<Call>, ph: Phase) {
    && Invokes(tr) <= Allowed(cfg)
    && (ph.Opening? || ph.Admitting? || ph.Preparing? ==> Invokes(tr) == 0)
    && (InAttempt(ph) ==>
        1 <= ph.attempt <= cfg.retries && Invokes(tr) == if ph.Running? then ph.attempt - 1 else ph.attempt)
    && (ph.Pausing? ==> ph.attempt < cfg.retries)
    && (ph.Posting? ==> if ph.report then Invokes(tr) == Allowed(cfg) else Invokes(tr) >= 1)
    && (InFlight(ph) && !(ph.Checking? && ph.run.ok) && !(ph.Posting? && !ph.report) ==> AllRunsFailed(tr))
    && (ph.Opening? ==> AllRunsFailed(tr))
    && (ph.Done? && ph.outcome.SelfReported? ==> Invokes(tr) == Allowed(cfg) && AllRunsFailed(tr))
    && (ph.Done? && ph.outcome.Answered? ==> Invokes(tr) >= 1)
    && (ph.Done? && (ph.outcome.SelfSkipped? || ph.outcome.AlreadyAnswered? || ph.outcome.Refused?) ==>
        Invokes(tr) == 0)
  }

  lemma RunHistoryStep(cfg: Config, w: Wake, tr: seq<Call>, ph: Phase, c: Call)
    requires RunHistory(cfg, w, tr, ph) && Next(cfg, w, ph, c).Some?
    ensures RunHistory(cfg, w, tr + [c], Next(cfg, w, ph, c).value)
  {
    assert (tr + [c])[..|tr|] == tr;
    assert AllRunsFailed(tr) && !(c.Invoke? && c.result.ok) ==> AllRunsFailed(tr + [c]);
  }

  ghost predicate ViewHistory(cfg: Config, w: Wake, tr: seq<Call>, ph: Phase) {
    && (ph.Opening? ==> tr == [])
    && (InFlight(ph) ==> tr != [] && Shows(tr[0]) && ph.seen == LastView(tr))
    && (InFlight(ph) || (ph.Done? && (ph.outcome.Answered? || ph.outcome.SelfReported? || ph.outcome.Refused?)) ==>
          OutcomeId(cfg, w) !in Ids(FirstView(tr)))
    && (ph.Done? && ph.outcome.AlreadyAnswered? ==> OutcomeId(cfg, w) in Ids(FirstView(tr)))
    && (ph.Done? && ph.outcome.SelfSkipped? ==> tr == [] && w.author == cfg.persona)
    && (InFlight(ph) && ReadsGrow(tr) ==> FirstView(tr) <= LastView(tr))
    && (ReadsGrow(tr) && (InFlight(ph) || (ph.Done? && ph.outcome.SelfReported?)) ==> !OwnTurnAppeared(cfg, tr))
    && (ReadsGrow(tr) && ph.Done? && ph.outcome.Answered? ==> (Posts(tr) == 0 <==> OwnTurnAppeared(cfg, tr)))
  }

  lemma ViewsExtend(tr: seq<Call>, c: Call)
    ensures FirstView(tr + [c]) == if tr == [] then FirstView([c]) else FirstView(tr)
    ensures LastView(tr + [c]) == if Shows(c) then c.view.value else LastView(tr)
    ensures ReadsGrow(tr + [c]) <==>
              ReadsGrow(tr) && (Shows(c) ==> LastView(tr) <= c.view.value && UniqueIds(c.view.value))
    ensures Posts(tr + [c]) == Posts(tr) + (if c.Post? then 1 else 0)
  {
    assert (tr + [c])[..|tr|] == tr;
  }

  lemma ViewHistoryStep(cfg: Config, w: Wake, tr: seq<Call>, ph: Phase, c: Call)
    requires ViewHistory(cfg, w, tr, ph) && PostHistory(cfg, w, tr, ph) && Next(cfg, w, ph, c).Some?
    ensures ViewHistory(cfg, w, tr + [c], Next(cfg, w, ph, c).value)
  {
    ViewsExtend(tr, c);
    if ph.Checking? && Shows(c) && ReadsGrow(tr + [c]) {
      CheckedView(cfg, FirstView(tr), ph.seen, c.view.value);
    }
  }

  /** What the snapshot comparison says about the whole wake: an own turn new since the last snapshot is
      new since the first read, and without one nothing has appeared at all. */
  lemma CheckedView(cfg: Config, first: seq<Turn>, seen: seq<Turn>, view: seq<Turn>)
    requires first <= seen <= view && UniqueIds(view)
    requires forall t | t in seen :: !NewOwn(t, first, cfg.persona)
    ensures (exists t :: t in view && NewOwn(t, first, cfg.persona)) <==> FirstNewOwn(seen, view, cfg.persona).Some?
  {
    forall s, t | s in seen && t in view && s.opId == t.opId ensures t in seen {
      SameIdSameTurn(view, s, t);
    }
    assert forall t | t in view :: t.opId in Ids(seen) ==> t in seen;
    assert forall t | t in first :: t in seen;
  }

  lemma {:induction false} HistoryHolds(cfg: Config, w: Wake, tr: seq<Call>, ph: Phase)
    requires Run(cfg, w, tr) == Some(ph)
    ensures PostHistory(cfg, w, tr, ph) && RunHistory(cfg, w, tr, ph) && ViewHistory(cfg, w, tr, ph)
  {
    if tr != [] {
      var init, c := tr[..|tr| - 1], tr[|tr| - 1];
      var before := Run(cfg, w, init).value;
      HistoryHolds(cfg, w, init, before);
      PostHistoryStep(cfg, w, init, before, c);
      RunHistoryStep(cfg, w, init, before, c);
      ViewHistoryStep(cfg, w, init, before, c);
      assert init + [c] == tr;
    }
  }

  /** The wake contract, over any environment: at most one post, only under the wake's own id; at most
      Retries runs; a skipped, answered or refused wake runs and posts nothing; an answer is either its own
      post or an own turn the first read did not show, never both; a self-report follows exactly Retries failed runs. */
  lemma WakeContract(cfg: Config, w: Wake, tr: seq<Call>, result: WakeResult)
    requires Run(cfg, w, tr) == Some(Done(result))
    ensures Posts(tr) <= 1 && PostsUnder(tr, w.topic, OutcomeId(cfg, w)) && Invokes(tr) <= Allowed(cfg)
    ensures result.SelfSkipped? || result.AlreadyAnswered? || result.Refused? ==> Posts(tr) == 0 && Invokes(tr) == 0
    ensures result.Answered? || result.SelfReported? ==> OutcomeId(cfg, w) !in Ids(FirstView(tr))
    ensures result.Answered? && ReadsGrow(tr) ==> (Posts(tr) == 1 <==> !OwnTurnAppeared(cfg, tr))
    ensures result.SelfReported? ==> Posts(tr) == 1 && Invokes(tr) == Allowed(cfg) && AllRunsFailed(tr)
    ensures result.SelfReported? && ReadsGrow(tr) ==> !OwnTurnAppeared(cfg, tr)
    ensures result.Failed? && !result.stage.PostStage? ==> Posts(tr) == 0
  {
    HistoryHolds(cfg, w, tr, Done(result));
  }

  /** Which wakes never reach the harness, read off the first view alone. */
  lemma ReplayInvokesNothing(cfg: Config, w: Wake, tr: seq<Call>, result: WakeResult)
    requires Run(cfg, w, tr) == Some(Done(result)) && tr != [] && Shows(tr[0])
    ensures OutcomeId(cfg, w) in Ids(FirstView(tr)) <==> result.AlreadyAnswered?
    ensures OutcomeId(cfg, w) in Ids(FirstView(tr)) ==> Invokes(tr) == 0 && Posts(tr) == 0 && |tr| == 1
  {
    HistoryHolds(cfg, w, tr, Done(result));
    AfterAnswered(cfg, w, tr, Done(result));
  }

  lemma {:induction false} AfterAnswered(cfg: Config, w: Wake, tr: seq<Call>, ph: Phase)
    requires Run(cfg, w, tr) == Some(ph) && tr != [] && Shows(tr[0])
    ensures OutcomeId(cfg, w) in Ids(FirstView(tr)) ==> ph == Done(AlreadyAnswered) && |tr| == 1
    ensures ph == Done(AlreadyAnswered) ==> |tr| == 1
  {
    var init := tr[..|tr| - 1];
    if |tr| == 1 {
      assert Run(cfg, w, init) == Some(Start(cfg, w));
    } else {
      AfterAnswered(cfg, w, init, Run(cfg, w, init).value);
      assert FirstView(init) == FirstView(tr);
      HistoryHolds(cfg, w, init, Run(cfg, w, init).value);
    }
  }
}
