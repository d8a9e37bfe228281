/**
 Exactly one outcome per admitted trigger, over the runs of module Engines, and what a later catch-up then
 replays. Crashes, restarts, duplicate deliveries and turns a harness posts for itself are all part of
 these runs.
*/
module ExactlyOnce {
  import opened Wrappers
  import opened Correlate
  import opened WakeProtocol
  import opened Engines
  import opened CatchUp

  predicate IsAnswer(r: WakeResult) { r.Answered? || r.SelfReported? || r.AlreadyAnswered? }

  predicate WakeOf(f: Finished, persona: string, trigger: OpId) {
    f.cfg.persona == persona && f.wake.opId == trigger
  }

  /** The wake answered its trigger, or its post landed unheard. */
  predicate Discharges(f: Finished) { IsAnswer(f.result) || f.ending.Landed? }

  ghost predicate Discharged(s: World, persona: string, trigger: OpId) {
    exists f :: f in s.finished && WakeOf(f, persona, trigger) && Discharges(f)
  }

  /** It did so other than by taking an own turn of the record for its answer. */
  ghost predicate Attested(s: World, persona: string, trigger: OpId) {
    exists f :: f in s.finished && WakeOf(f, persona, trigger) && Discharges(f) && !f.ending.Correlated?
  }

  /*** Every run ***/

  ghost predicate LeavesItsId(record: seq<Turn>, f: Finished) {
    Discharges(f) && !f.ending.Correlated? ==> WakeOpID(f.wake.opId, f.cfg.persona) in Ids(record)
  }

  ghost predicate Accounted(s: World) {
    && (forall f | f in s.finished :: LeavesItsId(s.record, f))
    && (forall t | t in s.record && t.opId.Outcome? :: Attested(s, t.opId.persona, t.opId.trigger))
  }

  lemma AccountedGrows(s: World, s': World)
    requires Accounted(s) && Ids(s.record) <= Ids(s'.record) && s.finished <= s'.finished
    requires forall f | f in s'.finished :: f in s.finished || LeavesItsId(s'.record, f)
    requires forall t | t in s'.record && t.opId.Outcome? ::
               t in s.record || Attested(s', t.opId.persona, t.opId.trigger)
    ensures Accounted(s')
  {
    forall f | f in s'.finished ensures LeavesItsId(s'.record, f) {
      if f in s.finished { assert LeavesItsId(s.record, f); }
    }
    forall t | t in s'.record && t.opId.Outcome? ensures Attested(s', t.opId.persona, t.opId.trigger) {
      if t in s.record {
        assert Attested(s, t.opId.persona, t.opId.trigger);
        AttestedGrows(s, s', t.opId.persona, t.opId.trigger);
      }
    }
  }

  lemma AttestedGrows(s: World, s': World, persona: string, trigger: OpId)
    requires Attested(s, persona, trigger) && s.finished <= s'.finished
    ensures Attested(s', persona, trigger)
  {
    var f :| f in s.finished && WakeOf(f, persona, trigger) && Discharges(f) && !f.ending.Correlated?;
    assert f in s'.finished;
  }

  /** How a call can end a wake. */
  lemma MoveEnds(window: int, s: World, eng: Engine, c: Call, stored: bool)
    requires Inv(s) && EngineOk(s, eng)
    requires Next(eng.cfg, eng.wake, eng.phase, c).Some? && Answers(window, s, eng, c, stored)
    ensures stored ==> Moved(s, eng, c).phase.Done? && c.Post? && c.opId == OutcomeId(eng.cfg, eng.wake)
    ensures !stored && Moved(s, eng, c).phase.Done? && IsAnswer(Moved(s, eng, c).phase.outcome) ==>
              EndingOf(Moved(s, eng, c), c, stored).Correlated? || OutcomeId(eng.cfg, eng.wake) in Ids(s.record)
    ensures EndingOf(Moved(s, eng, c), c, stored).Correlated? ==>
              Shows(c) && exists t :: t in s.record && NewOwn(t, eng.phase.seen, eng.cfg.persona)
  {}

  lemma ActAccounted(window: int, s: World, e: nat, c: Call, stored: bool, text: string)
    requires Inv(s) && Accounted(s) && Enabled(window, s, Act(e, c, stored, text))
    ensures Accounted(Apply(window, s, Act(e, c, stored, text)))
  {
    var eng := s.engines[e];
    var s' := Apply(window, s, Act(e, c, stored, text));
    assert EngineOk(s, eng);
    MoveEnds(window, s, eng, c, stored);
    if stored {
      var t := Turn(c.opId, eng.cfg.persona, TURN_POST, text, s.clock);
      assert s'.record == s.record + [t];
      assert t in s'.record;
      assert s'.finished[|s.finished|].ending.Landed?;
      assert Attested(s', eng.cfg.persona, eng.wake.opId);
    }
    AccountedGrows(s, s');
  }

  lemma {:induction false} ReachableAccounted(window: int, acts: seq<Action>)
    requires Play(window, acts).Some?
    ensures Accounted(Play(window, acts).value) && Inv(Play(window, acts).value)
  {
    Reachable(window, acts);
    if acts != [] {
      var init, a := acts[..|acts| - 1], acts[|acts| - 1];
      ReachableAccounted(window, init);
      var s := Play(window, init).value;
      if a.Act? {
        ActAccounted(window, s, a.e, a.call, a.stored, a.text);
      } else {
        AccountedGrows(s, Apply(window, s, a));
      }
    }
  }

  /** Which triggers have their outcome on the record, in every run: any number of instances, crashes,
      lost calls and self-posts. A trigger discharged only by snapshot correlation has none, and no other
      discharged trigger lacks it; and where it is, it is one own turn. */
  lemma OutcomeIffAttested(window: int, acts: seq<Action>, persona: string, trigger: OpId)
    requires Play(window, acts).Some?
    ensures var s := Play(window, acts).value;
            && (WakeOpID(trigger, persona) in Ids(s.record) <==> Attested(s, persona, trigger))
            && (Attested(s, persona, trigger) ==> exists i | 0 <= i < |s.record| ::
                  IsOwn(s.record[i], persona) && OnlyAt(s.record, WakeOpID(trigger, persona), i))
  {
    ReachableAccounted(window, acts);
    var s := Play(window, acts).value;
    if WakeOpID(trigger, persona) in Ids(s.record) {
      var t :| t in s.record && t.opId == WakeOpID(trigger, persona);
    }
    if Attested(s, persona, trigger) {
      var f :| f in s.finished && WakeOf(f, persona, trigger) && Discharges(f) && !f.ending.Correlated?;
      assert LeavesItsId(s.record, f);
      var i :| 0 <= i < |s.record| && s.record[i].opId == WakeOpID(trigger, persona);
      OutcomesAreOwn(s.record, s.record[i]);
      assert IsOwn(s.record[i], persona) && OnlyAt(s.record, WakeOpID(trigger, persona), i);
    }
  }

  /** The id is on the record once, at i. */
  ghost predicate OnlyAt(record: seq<Turn>, id: OpId, i: nat) {
    forall j | 0 <= j < |record| :: record[j].opId == id <==> j == i
  }

  /** What a catch-up over the record of any run replays: among the contributions, exactly the foreign ops of
      a declared type that no wake answered, or that were answered only by snapshot correlation. */
  lemma RestartReplaysTheUnattested(window: int, acts: seq<Action>, persona: string, src: TopicSource, t: Turn)
    requires Play(window, acts).Some? && t in Play(window, acts).value.record
    ensures var s := Play(window, acts).value;
            WakeFor(src, t) in Turns(s.record, persona, src, |s.record|)
            <==> t.kind in Types(src) && t.author != persona && !Attested(s, persona, t.opId)
  {
    var s := Play(window, acts).value;
    Reachable(window, acts);
    OutcomeIffAttested(window, acts, persona, t.opId);
    var i :| 0 <= i < |s.record| && s.record[i] == t;
    if Wanted(s.record, persona, src, t) {
      ReplayedInOrder(s.record, [], persona, src, i);
      TurnsPrefix(s.record, persona, src, i + 1, |s.record|);
    }
    if WakeFor(src, t) in Turns(s.record, persona, src, |s.record|) {
      OnlyWantedReplayed(s.record, persona, src, |s.record|, WakeFor(src, t));
      var j :| 0 <= j < |s.record| && Wanted(s.record, persona, src, s.record[j])
               && WakeFor(src, t) == WakeFor(src, s.record[j]);
      SameIdSameTurn(s.record, s.record[j], t);
    }
  }

  /** The same of attachments: an attachment the topic lists is replayed exactly when it is foreign, attachments
      are declared, and its trigger is unattested. */
  lemma RestartReplaysFiles(window: int, acts: seq<Action>, persona: string, src: TopicSource,
      files: seq<Attachment>, i: nat)
    requires Play(window, acts).Some? && i < |files|
    ensures var s := Play(window, acts).value;
            Owed(s.record, persona, files[i].author, files[i].opId)
            <==> files[i].author != persona && !Attested(s, persona, files[i].opId)
    ensures var s := Play(window, acts).value;
            Declares(src, "attachment.add") && files[i].author != persona && !Attested(s, persona, files[i].opId) ==>
              exists w :: w in Pending(s.record, files, persona, src) && w.opId == files[i].opId
  {
    var s := Play(window, acts).value;
    OutcomeIffAttested(window, acts, persona, files[i].opId);
    UnansweredIsOwed(s.record, persona, files[i].author, files[i].opId);
    if Declares(src, "attachment.add") && Owed(s.record, persona, files[i].author, files[i].opId) {
      FileReplayed(s.record, files, persona, src, i);
    }
  }

  /*** One instance at a time ***/

  ghost predicate Live(s: World, persona: string, e: nat) {
    e in s.engines && s.engines[e].cfg.persona == persona && !s.engines[e].phase.Done?
  }

  /** The persona runs one instance at a time. Its process may die at any moment, any realm call may fail, and
      anybody may post at any time, the persona's harness under its own name too. */
  ghost predicate OneAtATime(s: World, persona: string, a: Action) {
    a.Deliver? && a.cfg.persona == persona ==> forall f :: Live(s, persona, f) ==> f == a.e
  }

  ghost predicate SequentialRun(window: int, persona: string, acts: seq<Action>) {
    acts == [] ||
    var init := acts[..|acts| - 1];
    && SequentialRun(window, persona, init) && Play(window, init).Some?
    && OneAtATime(Play(window, init).value, persona, acts[|acts| - 1])
  }

  ghost predicate Alone(s: World, persona: string) {
    forall e, f :: Live(s, persona, e) && Live(s, persona, f) ==> e == f
  }

  /** A turn the persona posted outside its wakes. */
  predicate SelfPost(t: Turn, persona: string) { IsOwn(t, persona) && t.opId.Fresh? }

  /** All the persona's instance has not seen of its persona is self-posts. */
  ghost predicate UpToDate(s: World, persona: string) {
    forall e :: Live(s, persona, e) && InFlight(s.engines[e].phase) ==>
      SeenOutcomes(s.record, s.engines[e].phase.seen, persona)
  }

  ghost predicate SeenOutcomes(record: seq<Turn>, seen: seq<Turn>, persona: string) {
    forall t | t in record && NewOwn(t, seen, persona) :: SelfPost(t, persona)
  }

  /** Why a wake of the persona ended as it did. */
  ghost predicate Explained(record: seq<Turn>, persona: string, f: Finished) {
    && (!Discharges(f) ==>
          f.result.Refused? || f.result.Failed? || (f.result.SelfSkipped? && f.wake.author == persona))
    && (f.ending.Correlated? ==> exists t :: t in record && SelfPost(t, persona))
  }

  ghost predicate AllExplained(s: World, persona: string) {
    forall f | f in s.finished && f.cfg.persona == persona :: Explained(s.record, persona, f)
  }

  ghost predicate Tidy(s: World, persona: string) {
    Alone(s, persona) && UpToDate(s, persona) && AllExplained(s, persona)
  }

  lemma ExplainedGrows(s: World, s': World, persona: string)
    requires AllExplained(s, persona) && s.record <= s'.record
    requires forall f | f in s'.finished && f.cfg.persona == persona ::
               f in s.finished || Explained(s'.record, persona, f)
    ensures AllExplained(s', persona)
  {
    forall f | f in s'.finished && f.cfg.persona == persona ensures Explained(s'.record, persona, f) {
      if f in s.finished {
        assert Explained(s.record, persona, f);
        assert forall t | t in s.record :: t in s'.record;
      }
    }
  }

  /** Why a call of the persona's one instance ends its wake. */
  lemma OwnEnd(window: int, s: World, persona: string, eng: Engine, c: Call, stored: bool)
    requires Inv(s) && EngineOk(s, eng) && eng.cfg.persona == persona && !eng.phase.Done?
    requires InFlight(eng.phase) ==> SeenOutcomes(s.record, eng.phase.seen, persona)
    requires Next(eng.cfg, eng.wake, eng.phase, c).Some? && Answers(window, s, eng, c, stored)
    ensures Moved(s, eng, c).phase.Done? ==>
              Explained(s.record, persona, Finished(eng.cfg, eng.wake, Moved(s, eng, c).phase.outcome,
                                                    EndingOf(Moved(s, eng, c), c, stored)))
  {
    if EndingOf(Moved(s, eng, c), c, stored).Correlated? {
      MoveEnds(window, s, eng, c, stored);
      var t :| t in s.record && NewOwn(t, eng.phase.seen, persona);
      assert SelfPost(t, persona);
    }
  }

  /** And what it leads to otherwise. */
  lemma OwnMove(window: int, s: World, persona: string, eng: Engine, c: Call, stored: bool)
    requires Inv(s) && EngineOk(s, eng) && eng.cfg.persona == persona && !eng.phase.Done?
    requires InFlight(eng.phase) ==> SeenOutcomes(s.record, eng.phase.seen, persona)
    requires Next(eng.cfg, eng.wake, eng.phase, c).Some? && Answers(window, s, eng, c, stored)
    ensures InFlight(Moved(s, eng, c).phase) ==> !stored && SeenOutcomes(s.record, Moved(s, eng, c).phase.seen, persona)
    ensures !Moved(s, eng, c).phase.Done? ==> InFlight(Moved(s, eng, c).phase)
  {
    forall t | t in s.record ensures t.opId in Ids(s.record) {}
  }

  lemma ActTidy(window: int, s: World, persona: string, e: nat, c: Call, stored: bool, text: string)
    requires Inv(s) && Tidy(s, persona) && Enabled(window, s, Act(e, c, stored, text))
    requires OneAtATime(s, persona, Act(e, c, stored, text))
    ensures Tidy(Apply(window, s, Act(e, c, stored, text)), persona)
  {
    var eng := s.engines[e];
    var s' := Apply(window, s, Act(e, c, stored, text));
    assert EngineOk(s, eng);
    MoveEnds(window, s, eng, c, stored);
    forall f | Live(s', persona, f) ensures Live(s, persona, f) {}
    if eng.cfg.persona == persona {
      assert Live(s, persona, e);
      OwnEnd(window, s, persona, eng, c, stored);
      OwnMove(window, s, persona, eng, c, stored);
    }
    forall f | Live(s', persona, f) && InFlight(s'.engines[f].phase)
      ensures SeenOutcomes(s'.record, s'.engines[f].phase.seen, persona)
    {
      assert f != e ==> Live(s, persona, f) && s'.engines[f] == s.engines[f];
    }
    ExplainedGrows(s, s', persona);
  }

  lemma StepTidy(window: int, s: World, persona: string, a: Action)
    requires Inv(s) && Tidy(s, persona) && Enabled(window, s, a) && OneAtATime(s, persona, a)
    ensures Tidy(Apply(window, s, a), persona)
  {
    if a.Act? {
      ActTidy(window, s, persona, a.e, a.call, a.stored, a.text);
    } else {
      var s' := Apply(window, s, a);
      forall f | Live(s', persona, f) && !(a.Deliver? && a.e == f)
        ensures Live(s, persona, f) && s'.engines[f] == s.engines[f] {}
      ExplainedGrows(s, s', persona);
    }
  }

  lemma {:induction false} ReachableTidy(window: int, acts: seq<Action>, persona: string)
    requires Play(window, acts).Some? && SequentialRun(window, persona, acts)
    ensures Tidy(Play(window, acts).value, persona)
  {
    if acts != [] {
      var init := acts[..|acts| - 1];
      ReachableTidy(window, init, persona);
      Reachable(window, init);
      StepTidy(window, Play(window, init).value, persona, acts[|acts| - 1]);
    }
  }

  /** Exactly once, for one instance at a time, with crashes, restarts and failing calls. Each id is on the record
      once; every turn of the persona is a self-post or the outcome of a wake of its trigger; a wake that
      discharged nothing was refused by the budget, skipped as the persona's own or parked by a failed call;
      a wake took a turn for its answer only if the persona posted for itself. So without self-posts a
      trigger is discharged exactly when its one outcome is on the record. */
  lemma ExactlyOncePerTrigger(window: int, acts: seq<Action>, persona: string)
    requires Play(window, acts).Some? && SequentialRun(window, persona, acts)
    ensures var s := Play(window, acts).value;
            && UniqueIds(s.record)
            && (forall t | t in s.record && IsOwn(t, persona) :: SelfPost(t, persona)
                  || (t.opId.Outcome? && t.opId.persona == persona && Attested(s, persona, t.opId.trigger)))
            && AllExplained(s, persona)
            && ((forall t | t in s.record :: !SelfPost(t, persona)) ==>
                  forall x :: Discharged(s, persona, x) <==> WakeOpID(x, persona) in Ids(s.record))
  {
    ReachableTidy(window, acts, persona);
    ReachableAccounted(window, acts);
    var s := Play(window, acts).value;
    forall t | t in s.record && IsOwn(t, persona) && t.opId.Outcome? ensures t.opId.persona == persona {
      OutcomesAreOwn(s.record, t);
    }
    forall t | t in s.record ensures !t.opId.External? {
      var i :| 0 <= i < |s.record| && s.record[i] == t;
      assert OutcomeShape(s.record, i);
    }
    if forall t | t in s.record :: !SelfPost(t, persona) {
      forall x ensures Discharged(s, persona, x) <==> WakeOpID(x, persona) in Ids(s.record) {
        OutcomeIffAttested(window, acts, persona, x);
        if Discharged(s, persona, x) {
          var f :| f in s.finished && WakeOf(f, persona, x) && Discharges(f);
          assert Explained(s.record, persona, f);
        }
      }
    }
  }

  /*** A harness that answers for itself ***/

  const CLERK := Config("clerk", 2, Budget(0, 0, 0), true, false)
  const MENTION := Wake("desk", Fresh(0), "ada", Unset, "")
  const ASKED := Turn(Fresh(0), "ada", TURN_POST, "", 0)
  const OWN := Turn(Fresh(1), "clerk", TURN_POST, "done", 0)
  const DONE := HarnessResult("done", true, "")

  /** One clerk, at phase `ph` of the mention's wake. */
  ghost predicate At(s: World, record: seq<Turn>, ph: Phase, finished: seq<Finished>) {
    && s.record == record && s.clock == 0 && s.finished == finished
    && s.engines.Keys == {0} && s.engines[0] == Engine(CLERK, MENTION, ph, 0)
  }

  /** The mention is read, and the harness run. */
  lemma ReadAndRun(acts0: seq<Action>, s0: World, record: seq<Turn>) returns (acts: seq<Action>, s: World)
    requires Play(1, acts0) == Some(s0) && SequentialRun(1, "clerk", acts0)
    requires At(s0, record, Opening, s0.finished) && OutcomeId(CLERK, MENTION) !in Ids(record)
    ensures Play(1, acts) == Some(s) && SequentialRun(1, "clerk", acts)
    ensures At(s, record, Running(1, record, AskFor(CLERK, MENTION, record, "")), s0.finished)
  {
    acts, s := Extend(acts0, s0, Act(0, Read("desk", Some(record)), false, ""));
  }

  lemma Finish(acts0: seq<Action>, s0: World, record: seq<Turn>, seen: seq<Turn>, ask: Ask)
    returns (acts: seq<Action>, s: World)
    requires Play(1, acts0) == Some(s0) && SequentialRun(1, "clerk", acts0)
    requires At(s0, record, Running(1, seen, ask), s0.finished)
    ensures Play(1, acts) == Some(s) && SequentialRun(1, "clerk", acts)
    ensures At(s, record, if FirstNewOwn(seen, record, "clerk").Some? then Done(Answered)
                          else Posting(record, Reply("done"), [], false),
               s0.finished + if FirstNewOwn(seen, record, "clerk").Some?
                             then [Finished(CLERK, MENTION, Answered, Correlated)] else [])
  {
    acts, s := Extend(acts0, s0, Act(0, Invoke(1, ask, DONE), false, ""));
    assert At(s, record, Checking(1, seen, ask, DONE), s0.finished);
    acts, s := Extend(acts, s, Act(0, Read("desk", Some(record)), false, ""));
  }

  lemma Mentioned(acts0: seq<Action>, s0: World, record: seq<Turn>) returns (acts: seq<Action>, s: World)
    requires Play(1, acts0) == Some(s0) && SequentialRun(1, "clerk", acts0)
    requires |record| > 0 && record[0] == ASKED
    requires s0.engines == map[] || At(s0, record, Done(Answered), s0.finished)
    requires s0.record == record && s0.clock == 0
    ensures Play(1, acts) == Some(s) && SequentialRun(1, "clerk", acts) && At(s, record, Opening, s0.finished)
  {
    assert ASKED in s0.record;
    acts, s := Extend(acts0, s0, Deliver(0, CLERK, MENTION));
  }

  /** The failing input: a mention answered twice. During the first wake the harness posts for itself, which
      leaves no outcome id, so the redelivered mention runs the harness again and posts a second answer. */
  lemma SelfPostAnswersTwice() returns (acts: seq<Action>)
    ensures SequentialRun(1, "clerk", acts) && Play(1, acts).Some?
    ensures var s := Play(1, acts).value;
            && s.finished == [Finished(CLERK, MENTION, Answered, Correlated),
                               Finished(CLERK, MENTION, Answered, Landed)]
            && |s.record| == 3 && IsOwn(s.record[1], "clerk") && IsOwn(s.record[2], "clerk")
  {
    var s;
    acts, s := SelfAnswered();
    var view := [ASKED, OWN];
    acts, s := Mentioned(acts, s, view);
    acts, s := ReadAndRun(acts, s, view);
    NothingNew(view);
    acts, s := Finish(acts, s, view, view, AskFor(CLERK, MENTION, view, ""));
    acts, s := Land(acts, s, view);
  }

  lemma NothingNew(view: seq<Turn>)
    ensures FirstNewOwn(view, view, "clerk").None?
  {
    forall t | t in view ensures !NewOwn(t, view, "clerk") { assert t.opId in Ids(view); }
  }

  lemma Land(acts0: seq<Action>, s0: World, record: seq<Turn>) returns (acts: seq<Action>, s: World)
    requires Play(1, acts0) == Some(s0) && SequentialRun(1, "clerk", acts0)
    requires At(s0, record, Posting(record, Reply("done"), [], false), s0.finished)
    requires OutcomeId(CLERK, MENTION) !in Ids(record)
    ensures Play(1, acts) == Some(s) && SequentialRun(1, "clerk", acts)
    ensures s.finished == s0.finished + [Finished(CLERK, MENTION, Answered, Landed)]
    ensures s.record == record + [Turn(OutcomeId(CLERK, MENTION), "clerk", TURN_POST, "done", 0)]
  {
    var post := Post("desk", Reply("done"), [], OutcomeId(CLERK, MENTION), true);
    acts, s := Extend(acts0, s0, Act(0, post, true, "done"));
  }

  /** The first wake, answered by the harness itself. */
  lemma SelfAnswered() returns (acts: seq<Action>, s: World)
    ensures SequentialRun(1, "clerk", acts) && Play(1, acts) == Some(s)
    ensures At(s, [ASKED, OWN], Done(Answered), [Finished(CLERK, MENTION, Answered, Correlated)])
  {
    acts, s := [], Init;
    acts, s := Extend(acts, s, Foreign(ASKED));
    acts, s := Mentioned(acts, s, [ASKED]);
    acts, s := ReadAndRun(acts, s, [ASKED]);
    var ask := AskFor(CLERK, MENTION, [ASKED], "");
    acts, s := Extend(acts, s, Foreign(OWN));
    assert NewOwn(OWN, [ASKED], "clerk") && OWN in [ASKED, OWN];
    acts, s := Finish(acts, s, [ASKED, OWN], [ASKED], ask);
  }

  lemma Extend(acts: seq<Action>, s: World, a: Action) returns (acts': seq<Action>, s': World)
    requires Play(1, acts) == Some(s) && SequentialRun(1, "clerk", acts)
    requires Enabled(1, s, a) && OneAtATime(s, "clerk", a)
    ensures acts' == acts + [a] && s' == Apply(1, s, a)
    ensures Play(1, acts') == Some(s') && SequentialRun(1, "clerk", acts')
  {
    acts', s' := acts + [a], Apply(1, s, a);
    assert acts'[..|acts|] == acts;
  }
}
