/**
 What the calls of one wake say, read without the automaton (wrap/wake.go): where in the trace each call
 stands, what the harness was asked, which run a post carries, and to whom it is addressed. Every statement
 is about the recorded calls alone.
*/
module WakeTrace {
  import opened Wrappers
  import opened Correlate
  import opened WakeProtocol

  /** Calls before the first run: the read, the clock of a budgeted engine, the instructions of an instructed
      one. */
  function Header(cfg: Config): nat { 1 + (if cfg.unbudgeted then 0 else 1) + (if cfg.instructed then 1 else 0) }

  /** Where run n stands: each run is followed by a read, and each but the last by a pause. */
  function RunAt(cfg: Config, n: int): int { Header(cfg) + 3 * (n - 1) }

  function ViewAt(tr: seq<Call>, i: int): seq<Turn> {
    if 0 <= i < |tr| && Shows(tr[i]) then tr[i].view.value else []
  }

  predicate ReadAt(tr: seq<Call>, i: int, topic: string) {
    0 <= i < |tr| && Shows(tr[i]) && tr[i].topic == topic
  }

  /** The views run n is judged by. */
  function Before(cfg: Config, tr: seq<Call>, n: int): seq<Turn> {
    ViewAt(tr, if n == 1 then 0 else RunAt(cfg, n - 1) + 1)
  }

  function After(cfg: Config, tr: seq<Call>, n: int): seq<Turn> { ViewAt(tr, RunAt(cfg, n) + 1) }

  ghost predicate NothingNew(persona: string, before: seq<Turn>, after: seq<Turn>) {
    forall t | t in after && t.author == persona && t.kind == "turn.post" :: t.opId in Ids(before)
  }

  predicate FirstWith(view: seq<Turn>, id: OpId, k: int) {
    0 <= k < |view| && view[k].opId == id && forall i | 0 <= i < k :: view[i].opId != id
  }

  /** The trigger as the view has it, or as the wake carries it when the view has not. */
  ghost predicate IsTrigger(view: seq<Turn>, w: Wake, t: Turn) {
    || (exists k :: FirstWith(view, w.opId, k) && t == view[k])
    || (w.opId !in Ids(view) && t == Turn(w.opId, w.author, "", "", 0))
  }

  /** The body asked about: the trigger's own text when the view has some, else what the wake carries. */
  ghost predicate IsBody(view: seq<Turn>, w: Wake, body: string) {
    || (exists k :: FirstWith(view, w.opId, k) && view[k].body != "" && body == view[k].body)
    || ((forall k | FirstWith(view, w.opId, k) :: view[k].body == "") && body == w.body)
  }

  lemma {:induction false} AnchorIsFirst(view: seq<Turn>, id: OpId) returns (k: int)
    ensures Anchor(view, id).Some? ==> FirstWith(view, id, k) && Anchor(view, id).value == view[k]
  {
    k := 0;
    if view != [] && view[0].opId != id {
      var j := AnchorIsFirst(view[1..], id);
      k := j + 1;
    }
  }

  lemma FirstIsOne(view: seq<Turn>, id: OpId, k: int, j: int)
    requires FirstWith(view, id, k) && FirstWith(view, id, j)
    ensures k == j
  {}

  ghost predicate Admitted(cfg: Config, w: Wake, tr: seq<Call>) {
    && ReadAt(tr, 0, w.topic) && WakeOpID(w.opId, cfg.persona) !in Ids(ViewAt(tr, 0))
    && (!cfg.unbudgeted ==>
          && |tr| > 1 && tr[1].Clock?
          && exists t :: IsTrigger(ViewAt(tr, 0), w, t)
                         && Decide(cfg.budget, ViewAt(tr, 0), t, cfg.persona, tr[1].now).Admitted?)
  }

  /** The wake was admitted, its instructions are the ones read for it, and `ask` is what it is about. */
  ghost predicate Asked(cfg: Config, w: Wake, tr: seq<Call>, ask: Ask) {
    && Admitted(cfg, w, tr) && Header(cfg) <= |tr|
    && ask.persona == cfg.persona && ask.topic == w.topic && ask.author == w.author && ask.opId == w.opId
    && ask.kind == (if w.kind == Unset then MentionWake else w.kind)
    && IsBody(ViewAt(tr, 0), w, ask.body)
    && (if cfg.instructed then tr[Header(cfg) - 1] == Materialise(Some(ask.instructions)) else ask.instructions == "")
  }

  predicate Ran(cfg: Config, tr: seq<Call>, n: int, ask: Ask) {
    && n >= 1 && RunAt(cfg, n) < |tr|
    && var c := tr[RunAt(cfg, n)]; c.Invoke? && c.attempt == n && c.ask == ask
  }

  /** Run n and the read after it, which shows no own turn the read before did not. */
  ghost predicate RanInVain(cfg: Config, w: Wake, tr: seq<Call>, n: int, ask: Ask) {
    && Ran(cfg, tr, n, ask)
    && ReadAt(tr, RunAt(cfg, n) + 1, w.topic)
    && NothingNew(cfg.persona, Before(cfg, tr, n), After(cfg, tr, n))
  }

  ghost predicate RunFailed(cfg: Config, w: Wake, tr: seq<Call>, n: int, ask: Ask) {
    RanInVain(cfg, w, tr, n, ask) && !tr[RunAt(cfg, n)].result.ok
  }

  predicate PausedAfter(cfg: Config, tr: seq<Call>, n: int) {
    RunAt(cfg, n) + 2 < |tr| && RunAt(cfg, n) >= 0 && tr[RunAt(cfg, n) + 2] == Pause(true)
  }

  /** Runs 1 to n failed one after the other, the first `pauses` of them followed by a pause. */
  ghost predicate FailedRuns(cfg: Config, w: Wake, tr: seq<Call>, n: int, pauses: int, ask: Ask) {
    && (forall m | 1 <= m <= n :: RunFailed(cfg, w, tr, m, ask))
    && (forall m | 1 <= m <= pauses :: PausedAfter(cfg, tr, m))
  }

  /** The self-report: what the last run said went wrong, how many runs there were, and the asker tapped. */
  predicate ReportIs(cfg: Config, w: Wake, tr: seq<Call>, body: Body, taps: seq<string>) {
    && body.SelfReport? && body.attempts == cfg.retries
    && taps == (if w.author == "" then [] else [w.author])
    && if cfg.retries < 1 then body.detail == ""
       else 0 <= RunAt(cfg, cfg.retries) < |tr| && tr[RunAt(cfg, cfg.retries)].Invoke?
            && body.detail == tr[RunAt(cfg, cfg.retries)].result.detail
  }

  /** Everything before the report's post. */
  ghost predicate AllFailed(cfg: Config, w: Wake, tr: seq<Call>, ask: Ask) {
    && Asked(cfg, w, tr, ask) && FailedRuns(cfg, w, tr, cfg.retries, cfg.retries - 1, ask)
    && |tr| == if cfg.retries < 1 then Header(cfg) else RunAt(cfg, cfg.retries) + 2
  }

  /** Everything before the reply's post: run n succeeded, and nobody has answered yet. */
  ghost predicate Succeeded(cfg: Config, w: Wake, tr: seq<Call>, n: int, ask: Ask) {
    && Asked(cfg, w, tr, ask) && 1 <= n <= cfg.retries && FailedRuns(cfg, w, tr, n - 1, n - 1, ask)
    && RanInVain(cfg, w, tr, n, ask) && tr[RunAt(cfg, n)].result.ok && |tr| == RunAt(cfg, n) + 2
  }

  /** The run whose text a reply carries. */
  function LastRun(cfg: Config, tr: seq<Call>): int { (|tr| - 2 - Header(cfg)) / 3 + 1 }

  ghost predicate SelfTriggered(cfg: Config, w: Wake) { w.author != "" && w.author == cfg.persona }

  /** What the calls so far say, phase by phase. */
  ghost predicate Told(cfg: Config, w: Wake, tr: seq<Call>, ph: Phase) {
    match ph
    case Opening => tr == [] && !SelfTriggered(cfg, w)
    case Admitting(seen) =>
      && |tr| == 1 && ReadAt(tr, 0, w.topic) && seen == ViewAt(tr, 0) && !cfg.unbudgeted
      && WakeOpID(w.opId, cfg.persona) !in Ids(seen)
    case Preparing(seen) =>
      Admitted(cfg, w, tr) && cfg.instructed && |tr| == Header(cfg) - 1 && seen == ViewAt(tr, 0)
    case Running(n, seen, ask) =>
      && Asked(cfg, w, tr, ask) && 1 <= n <= cfg.retries && |tr| == RunAt(cfg, n)
      && FailedRuns(cfg, w, tr, n - 1, n - 1, ask) && seen == Before(cfg, tr, n)
    case Checking(n, seen, ask, run) =>
      && Asked(cfg, w, tr, ask) && 1 <= n <= cfg.retries && |tr| == RunAt(cfg, n) + 1
      && FailedRuns(cfg, w, tr, n - 1, n - 1, ask) && seen == Before(cfg, tr, n)
      && Ran(cfg, tr, n, ask) && tr[RunAt(cfg, n)].result == run
    case Pausing(n, seen, ask) =>
      && Asked(cfg, w, tr, ask) && 1 <= n < cfg.retries && |tr| == RunAt(cfg, n) + 2
      && FailedRuns(cfg, w, tr, n, n - 1, ask) && seen == After(cfg, tr, n)
    case Posting(_, body, taps, report) =>
      if report then ReportIs(cfg, w, tr, body, taps) && exists ask :: AllFailed(cfg, w, tr, ask)
      else
        var n := LastRun(cfg, tr);
        && taps == []
        && (exists ask :: Succeeded(cfg, w, tr, n, ask) && body == Reply(tr[RunAt(cfg, n)].result.text))
    case Done(result) => Ended(cfg, w, tr, result)
  }

  /** The last call was the one post, answered `ok`; the calls before it led to it. */
  ghost predicate PostedReply(cfg: Config, w: Wake, tr: seq<Call>, ok: bool) {
    && tr != []
    && var init, n := tr[..|tr| - 1], LastRun(cfg, tr[..|tr| - 1]);
       exists ask :: Succeeded(cfg, w, init, n, ask)
         && tr[|tr| - 1] == Post(w.topic, Reply(init[RunAt(cfg, n)].result.text), [], WakeOpID(w.opId, cfg.persona), ok)
  }

  ghost predicate PostedReport(cfg: Config, w: Wake, tr: seq<Call>, ok: bool) {
    && tr != []
    && var init, c := tr[..|tr| - 1], tr[|tr| - 1];
       && c.Post? && c.topic == w.topic && c.opId == WakeOpID(w.opId, cfg.persona) && c.ok == ok
       && ReportIs(cfg, w, init, c.body, c.taps)
       && exists ask :: AllFailed(cfg, w, init, ask)
  }

  /** Run n is over, whatever came of it, and the read after it shows a turn the persona did not have before. */
  ghost predicate Correlated(cfg: Config, w: Wake, tr: seq<Call>, n: int, ask: Ask) {
    && Asked(cfg, w, tr, ask) && 1 <= n <= cfg.retries && |tr| == RunAt(cfg, n) + 2
    && FailedRuns(cfg, w, tr, n - 1, n - 1, ask) && Ran(cfg, tr, n, ask) && ReadAt(tr, RunAt(cfg, n) + 1, w.topic)
    && !NothingNew(cfg.persona, Before(cfg, tr, n), After(cfg, tr, n))
  }

  ghost predicate ReadFailed(cfg: Config, w: Wake, tr: seq<Call>) {
    && tr != [] && tr[|tr| - 1] == Read(w.topic, None)
    && (|tr| == 1 || exists n, ask :: 1 <= n <= cfg.retries && |tr| == RunAt(cfg, n) + 2
                                      && Asked(cfg, w, tr, ask) && Ran(cfg, tr, n, ask)
                                      && FailedRuns(cfg, w, tr, n - 1, n - 1, ask))
  }

  /** What a finished wake's calls were, result by result. */
  ghost predicate Ended(cfg: Config, w: Wake, tr: seq<Call>, result: WakeResult) {
    match result
    case SelfSkipped => SelfTriggered(cfg, w) && tr == []
    case AlreadyAnswered =>
      |tr| == 1 && ReadAt(tr, 0, w.topic) && WakeOpID(w.opId, cfg.persona) in Ids(ViewAt(tr, 0))
    case Refused(why) =>
      && !cfg.unbudgeted && |tr| == 2 && ReadAt(tr, 0, w.topic) && tr[1].Clock? && !why.Admitted?
      && WakeOpID(w.opId, cfg.persona) !in Ids(ViewAt(tr, 0))
      && exists t :: IsTrigger(ViewAt(tr, 0), w, t)
                     && why == Decide(cfg.budget, ViewAt(tr, 0), t, cfg.persona, tr[1].now)
    case Answered => PostedReply(cfg, w, tr, true) || exists n, ask :: Correlated(cfg, w, tr, n, ask)
    case SelfReported => PostedReport(cfg, w, tr, true)
    case Failed(stage) =>
      match stage
      case ReadStage => ReadFailed(cfg, w, tr)
      case InstructionStage =>
        Admitted(cfg, w, tr) && cfg.instructed && |tr| == Header(cfg) && tr[|tr| - 1] == Materialise(None)
      case PostStage => PostedReply(cfg, w, tr, false) || PostedReport(cfg, w, tr, false)
      case PauseStage =>
        exists n, ask :: 1 <= n < cfg.retries && |tr| == RunAt(cfg, n) + 3 && tr[|tr| - 1] == Pause(false)
                         && Asked(cfg, w, tr, ask) && FailedRuns(cfg, w, tr, n, n - 1, ask)
  }

  /*** From one call to the next ***/

  lemma AdmittedGrows(cfg: Config, w: Wake, tr: seq<Call>, c: Call)
    requires Admitted(cfg, w, tr)
    ensures Admitted(cfg, w, tr + [c])
  {
    assert ViewAt(tr + [c], 0) == ViewAt(tr, 0);
  }

  lemma AskedGrows(cfg: Config, w: Wake, tr: seq<Call>, c: Call, ask: Ask)
    requires Asked(cfg, w, tr, ask)
    ensures Asked(cfg, w, tr + [c], ask)
  {
    AdmittedGrows(cfg, w, tr, c);
    assert ViewAt(tr + [c], 0) == ViewAt(tr, 0);
  }

  lemma RunFailedGrows(cfg: Config, w: Wake, tr: seq<Call>, c: Call, m: int, ask: Ask)
    requires 1 <= m && RunFailed(cfg, w, tr, m, ask)
    ensures RunFailed(cfg, w, tr + [c], m, ask)
  {
    assert Before(cfg, tr + [c], m) == Before(cfg, tr, m) && After(cfg, tr + [c], m) == After(cfg, tr, m);
  }

  lemma FailedGrows(cfg: Config, w: Wake, tr: seq<Call>, c: Call, n: int, pauses: int, ask: Ask)
    requires FailedRuns(cfg, w, tr, n, pauses, ask)
    ensures FailedRuns(cfg, w, tr + [c], n, pauses, ask)
  {
    forall m | 1 <= m <= n ensures RunFailed(cfg, w, tr + [c], m, ask) {
      assert RunFailed(cfg, w, tr, m, ask);
      RunFailedGrows(cfg, w, tr, c, m, ask);
    }
    forall m | 1 <= m <= pauses ensures PausedAfter(cfg, tr + [c], m) { assert PausedAfter(cfg, tr, m); }
  }

  lemma TriggerIsTrigger(view: seq<Turn>, w: Wake)
    ensures IsTrigger(view, w, TriggerTurn(view, w))
  {
    var k := AnchorIsFirst(view, w.opId);
  }

  lemma AskIsAbout(cfg: Config, w: Wake, view: seq<Turn>, instructions: string)
    ensures IsBody(view, w, AskFor(cfg, w, view, instructions).body)
  {
    var k := AnchorIsFirst(view, w.opId);
    forall j | FirstWith(view, w.opId, j) ensures Anchor(view, w.opId).Some? && j == k {
      assert view[j] in view && view[j].opId in Ids(view);
      FirstIsOne(view, w.opId, k, j);
    }
  }

  lemma BeginTold(cfg: Config, w: Wake, tr: seq<Call>, ask: Ask)
    requires Asked(cfg, w, tr, ask) && |tr| == Header(cfg)
    ensures Told(cfg, w, tr, Attempt(cfg, w, 1, ViewAt(tr, 0), ask, ""))
  {
    if cfg.retries < 1 { assert AllFailed(cfg, w, tr, ask); }
  }

  lemma AdmitTold(cfg: Config, w: Wake, tr: seq<Call>)
    requires Admitted(cfg, w, tr) && |tr| == Header(cfg) - (if cfg.instructed then 1 else 0)
    ensures Told(cfg, w, tr, Admit(cfg, w, ViewAt(tr, 0)))
  {
    var view := ViewAt(tr, 0);
    if !cfg.instructed {
      AskIsAbout(cfg, w, view, "");
      BeginTold(cfg, w, tr, AskFor(cfg, w, view, ""));
    }
  }

  lemma OpeningTold(cfg: Config, w: Wake, c: Call)
    requires Told(cfg, w, [], Opening) && Next(cfg, w, Opening, c).Some?
    ensures Told(cfg, w, [c], Next(cfg, w, Opening, c).value)
  {
    if Shows(c) {
      assert ViewAt([c], 0) == c.view.value;
      if cfg.unbudgeted && OutcomeId(cfg, w) !in Ids(c.view.value) { AdmitTold(cfg, w, [c]); }
    }
  }

  lemma AdmittingTold(cfg: Config, w: Wake, tr: seq<Call>, seen: seq<Turn>, c: Call)
    requires Told(cfg, w, tr, Admitting(seen)) && Next(cfg, w, Admitting(seen), c).Some?
    ensures Told(cfg, w, tr + [c], Next(cfg, w, Admitting(seen), c).value)
  {
    assert ViewAt(tr + [c], 0) == seen;
    TriggerIsTrigger(seen, w);
    var v := Decide(cfg.budget, seen, TriggerTurn(seen, w), cfg.persona, c.now);
    if v.Admitted? { AdmitTold(cfg, w, tr + [c]); }
  }

  lemma PreparingTold(cfg: Config, w: Wake, tr: seq<Call>, seen: seq<Turn>, c: Call)
    requires Told(cfg, w, tr, Preparing(seen)) && Next(cfg, w, Preparing(seen), c).Some?
    ensures Told(cfg, w, tr + [c], Next(cfg, w, Preparing(seen), c).value)
  {
    AdmittedGrows(cfg, w, tr, c);
    assert ViewAt(tr + [c], 0) == seen;
    if c.text.Some? {
      AskIsAbout(cfg, w, seen, c.text.value);
      BeginTold(cfg, w, tr + [c], AskFor(cfg, w, seen, c.text.value));
    }
  }

  lemma RunningTold(cfg: Config, w: Wake, tr: seq<Call>, ph: Phase, c: Call)
    requires ph.Running? && Told(cfg, w, tr, ph) && Next(cfg, w, ph, c).Some?
    ensures Told(cfg, w, tr + [c], Next(cfg, w, ph, c).value)
  {
    AskedGrows(cfg, w, tr, c, ph.ask);
    FailedGrows(cfg, w, tr, c, ph.attempt - 1, ph.attempt - 1, ph.ask);
    assert Before(cfg, tr + [c], ph.attempt) == Before(cfg, tr, ph.attempt);
  }

  lemma PausingTold(cfg: Config, w: Wake, tr: seq<Call>, ph: Phase, c: Call)
    requires ph.Pausing? && Told(cfg, w, tr, ph) && Next(cfg, w, ph, c).Some?
    ensures Told(cfg, w, tr + [c], Next(cfg, w, ph, c).value)
  {
    AskedGrows(cfg, w, tr, c, ph.ask);
    FailedGrows(cfg, w, tr, c, ph.attempt, ph.attempt - 1, ph.ask);
    assert After(cfg, tr + [c], ph.attempt) == After(cfg, tr, ph.attempt);
    if c.elapsed { assert PausedAfter(cfg, tr + [c], ph.attempt); }
  }

  lemma CheckingTold(cfg: Config, w: Wake, tr: seq<Call>, ph: Phase, c: Call)
    requires ph.Checking? && Told(cfg, w, tr, ph) && Next(cfg, w, ph, c).Some?
    ensures Told(cfg, w, tr + [c], Next(cfg, w, ph, c).value)
  {
    var tr', n := tr + [c], ph.attempt;
    AskedGrows(cfg, w, tr, c, ph.ask);
    FailedGrows(cfg, w, tr, c, n - 1, n - 1, ph.ask);
    assert Before(cfg, tr', n) == Before(cfg, tr, n) && Ran(cfg, tr', n, ph.ask);
    if Shows(c) {
      assert After(cfg, tr', n) == c.view.value && ReadAt(tr', RunAt(cfg, n) + 1, w.topic);
      CheckedTold(cfg, w, tr', n, ph.seen, ph.ask, ph.run);
    }
  }

  lemma CheckedTold(cfg: Config, w: Wake, tr: seq<Call>, n: int, seen: seq<Turn>, ask: Ask, run: HarnessResult)
    requires Asked(cfg, w, tr, ask) && 1 <= n <= cfg.retries && |tr| == RunAt(cfg, n) + 2
    requires FailedRuns(cfg, w, tr, n - 1, n - 1, ask) && seen == Before(cfg, tr, n)
    requires Ran(cfg, tr, n, ask) && tr[RunAt(cfg, n)].result == run && ReadAt(tr, RunAt(cfg, n) + 1, w.topic)
    ensures Told(cfg, w, tr, AfterCheck(cfg, w, Checking(n, seen, ask, run), After(cfg, tr, n)))
  {
    var view := After(cfg, tr, n);
    if NothingNew(cfg.persona, seen, view) {
      assert RanInVain(cfg, w, tr, n, ask) && LastRun(cfg, tr) == n;
      if run.ok {
        assert Succeeded(cfg, w, tr, n, ask);
      } else if n == cfg.retries {
        assert AllFailed(cfg, w, tr, ask);
      }
    } else {
      assert Correlated(cfg, w, tr, n, ask);
    }
  }

  lemma PostingTold(cfg: Config, w: Wake, tr: seq<Call>, ph: Phase, c: Call)
    requires ph.Posting? && Told(cfg, w, tr, ph) && Next(cfg, w, ph, c).Some?
    ensures Told(cfg, w, tr + [c], Next(cfg, w, ph, c).value)
  {
    assert (tr + [c])[..|tr + [c]| - 1] == tr;
  }

  lemma StepTold(cfg: Config, w: Wake, tr: seq<Call>, ph: Phase, c: Call)
    requires Told(cfg, w, tr, ph) && Next(cfg, w, ph, c).Some?
    ensures Told(cfg, w, tr + [c], Next(cfg, w, ph, c).value)
  {
    match ph
    case Opening =>
      assert [] + [c] == [c];
      OpeningTold(cfg, w, c);
    case Admitting(seen) => AdmittingTold(cfg, w, tr, seen, c);
    case Preparing(seen) => PreparingTold(cfg, w, tr, seen, c);
    case Running(_, _, _) => RunningTold(cfg, w, tr, ph, c);
    case Checking(_, _, _, _) => CheckingTold(cfg, w, tr, ph, c);
    case Pausing(_, _, _) => PausingTold(cfg, w, tr, ph, c);
    case Posting(_, _, _, _) => PostingTold(cfg, w, tr, ph, c);
  }

  lemma {:induction false} EveryTraceIsTold(cfg: Config, w: Wake, tr: seq<Call>, ph: Phase)
    requires Run(cfg, w, tr) == Some(ph)
    ensures Told(cfg, w, tr, ph)
  {
    if tr != [] {
      var init, c := tr[..|tr| - 1], tr[|tr| - 1];
      var before := Run(cfg, w, init).value;
      EveryTraceIsTold(cfg, w, init, before);
      assert init + [c] == tr;
      StepTold(cfg, w, init, before, c);
    }
  }

  /** What became of every wake, read off its calls: each result comes with the whole trace that led to it. */
  lemma WakeIsItsTrace(cfg: Config, w: Wake, tr: seq<Call>, result: WakeResult)
    requires Run(cfg, w, tr) == Some(Done(result))
    ensures Ended(cfg, w, tr, result)
  {
    EveryTraceIsTold(cfg, w, tr, Done(result));
  }

  /*** Call by call ***/

  /** A reply carries the text of the run before it, which succeeded, and taps nobody. */
  predicate ReplyOf(tr: seq<Call>, i: int, text: string, taps: seq<string>) {
    && 2 <= i < |tr| && taps == [] && tr[i - 1].Read?
    && tr[i - 2].Invoke? && tr[i - 2].result.ok && text == tr[i - 2].result.text
  }

  /** A self-report carries the detail of the last of Retries runs, which failed, and taps exactly the asker. */
  ghost predicate ReportOf(cfg: Config, w: Wake, tr: seq<Call>, i: int, body: Body, taps: seq<string>) {
    && body.SelfReport? && body.attempts == cfg.retries && taps == (if w.author == "" then [] else [w.author])
    && if cfg.retries < 1 then body.detail == ""
       else 2 <= i < |tr| && tr[i - 1].Read? && tr[i - 2].Invoke? && tr[i - 2].attempt == cfg.retries
            && !tr[i - 2].result.ok && body.detail == tr[i - 2].result.detail
  }

  ghost predicate CallSays(cfg: Config, w: Wake, tr: seq<Call>, i: int)
    requires 0 <= i < |tr|
  {
    match tr[i]
    case Read(topic, _) => topic == w.topic
    case Clock(_) => i == 1 && !cfg.unbudgeted
    case Materialise(_) => i == Header(cfg) - 1 && cfg.instructed
    case Invoke(n, ask, _) => 1 <= n <= cfg.retries && i == RunAt(cfg, n) && Asked(cfg, w, tr, ask)
    case Post(topic, body, taps, id, _) =>
      && topic == w.topic && id == WakeOpID(w.opId, cfg.persona) && i == |tr| - 1
      && (if body.Reply? then ReplyOf(tr, i, body.text, taps) else ReportOf(cfg, w, tr, i, body, taps))
    case Pause(_) => i >= 2 && tr[i - 1].Read? && tr[i - 2].Invoke? && !tr[i - 2].result.ok
  }

  lemma NewCallSays(cfg: Config, w: Wake, tr: seq<Call>, ph: Phase, c: Call)
    requires Told(cfg, w, tr, ph) && Next(cfg, w, ph, c).Some?
    ensures CallSays(cfg, w, tr + [c], |tr|)
  {
    if ph.Running? { AskedGrows(cfg, w, tr, c, ph.ask); }
    if ph.Pausing? { assert RunFailed(cfg, w, tr, ph.attempt, ph.ask); }
    if ph.Posting? && ph.report && cfg.retries >= 1 {
      var ask :| AllFailed(cfg, w, tr, ask);
      assert RunFailed(cfg, w, tr, cfg.retries, ask);
    }
    if ph.Posting? && !ph.report {
      var ask :| Succeeded(cfg, w, tr, LastRun(cfg, tr), ask)
               && ph.body == Reply(tr[RunAt(cfg, LastRun(cfg, tr))].result.text);
    }
  }

  lemma NoPostYet(cfg: Config, w: Wake, tr: seq<Call>, ph: Phase, c: Call, i: int)
    requires 0 <= i < |tr| && CallSays(cfg, w, tr, i) && PostHistory(cfg, w, tr, ph) && Next(cfg, w, ph, c).Some?
    ensures !tr[i].Post?
  {
    assert tr[i].Post? ==> Posts(tr) >= 1;
  }

  lemma OldCallSays(cfg: Config, w: Wake, tr: seq<Call>, c: Call, i: int)
    requires 0 <= i < |tr| && CallSays(cfg, w, tr, i) && !tr[i].Post?
    ensures CallSays(cfg, w, tr + [c], i)
  {
    if tr[i].Invoke? { AskedGrows(cfg, w, tr, c, tr[i].ask); }
  }

  /** Every call of every wake, finished or not: what the harness was asked and when, what a post carries, to
      whom, and under which id. */
  lemma {:induction false} EveryCallSays(cfg: Config, w: Wake, tr: seq<Call>, i: int)
    requires Run(cfg, w, tr).Some? && 0 <= i < |tr|
    ensures CallSays(cfg, w, tr, i)
  {
    var init, c := tr[..|tr| - 1], tr[|tr| - 1];
    var before := Run(cfg, w, init).value;
    EveryTraceIsTold(cfg, w, init, before);
    assert init + [c] == tr;
    if i == |tr| - 1 {
      NewCallSays(cfg, w, init, before, c);
    } else {
      EveryCallSays(cfg, w, init, i);
      HistoryHolds(cfg, w, init, before);
      NoPostYet(cfg, w, init, before, c, i);
      OldCallSays(cfg, w, init, c, i);
    }
  }
}
