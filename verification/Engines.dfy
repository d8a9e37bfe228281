/**
 Any number of wake engines over one topic's record (wrap/wrap.go, wrap/wake.go): every interleaving of
 their calls, of foreign posts, of redeliveries, crashes and restarts. Each engine is the automaton of
 module WakeProtocol. The stream stamps what it stores and drops an id it stored within its duplicate
 window.
*/
module Engines {
  import opened Wrappers
  import opened Correlate
  import opened WakeProtocol

  /** One engine instance. `readAt` is when its last view was read. */
  datatype Engine = Engine(cfg: Config, wake: Wake, phase: Phase, readAt: int)

  /** How a wake ended. Landed: the stream stored its post, acknowledged or not. Correlated: it took a turn
      of its persona, new since its last read, for its answer, and posted nothing. */
  datatype Ending = Landed | Correlated | Quiet

  datatype Finished = Finished(cfg: Config, wake: Wake, result: WakeResult, ending: Ending)

  datatype World = World(record: seq<Turn>, clock: int, engines: map<nat, Engine>, finished: seq<Finished>)

  datatype Action =
    | Tick(d: nat)
    | Foreign(t: Turn)                                     // a person, another client, a harness posting for itself
    | Deliver(e: nat, cfg: Config, w: Wake)                // any wake, any number of times, to an idle or new instance
    | Act(e: nat, call: Call, stored: bool, text: string)  // one call of one instance; stored: its post was kept
    | Crash(e: nat)

  const Init := World([], 0, map[], [])

  ghost predicate Dropped(window: int, s: World, id: OpId) {
    exists t :: t in s.record && t.opId == id && s.clock - t.timestamp < window
  }

  /** A wake comes from an op of the topic, whose author it carries, or from outside the record. */
  ghost predicate TriggerKnown(record: seq<Turn>, w: Wake) {
    w.opId.External? || exists t :: t in record && t.opId == w.opId && t.author == w.author
  }

  /** What the world may answer to a call. A post may be lost, acknowledged or not, stored or dropped; one
      the stream stores follows the instance's own last read within the duplicate window. */
  ghost predicate Answers(window: int, s: World, eng: Engine, c: Call, stored: bool) {
    match c
    case Read(_, view) => !stored && (view.Some? ==> view.value == s.record)
    case Clock(now) => !stored && now == s.clock
    case Post(_, _, _, id, ok) =>
      if stored then !Dropped(window, s, id) && s.clock - eng.readAt < window
      else ok ==> Dropped(window, s, id)
    case _ => !stored
  }

  ghost predicate Enabled(window: int, s: World, a: Action) {
    match a
    case Tick(_) => true
    case Foreign(t) => t.opId.Fresh? && t.opId !in Ids(s.record) && t.timestamp == s.clock
    case Deliver(e, _, w) => (e in s.engines ==> s.engines[e].phase.Done?) && TriggerKnown(s.record, w)
    case Act(e, c, stored, _) =>
      && e in s.engines
      && Next(s.engines[e].cfg, s.engines[e].wake, s.engines[e].phase, c).Some?
      && Answers(window, s, s.engines[e], c, stored)
    case Crash(e) => e in s.engines
  }

  function Conclude(finished: seq<Finished>, eng: Engine, ending: Ending): seq<Finished> {
    if eng.phase.Done? then finished + [Finished(eng.cfg, eng.wake, eng.phase.outcome, ending)] else finished
  }

  function EndingOf(eng: Engine, c: Call, stored: bool): Ending {
    if stored then Landed
    else if eng.phase.Done? && eng.phase.outcome.Answered? && c.Read? then Correlated
    else Quiet
  }

  function Moved(s: World, eng: Engine, c: Call): Engine
    requires Next(eng.cfg, eng.wake, eng.phase, c).Some?
  {
    eng.(phase := Next(eng.cfg, eng.wake, eng.phase, c).value, readAt := if Shows(c) then s.clock else eng.readAt)
  }

  function Kept(s: World, eng: Engine, c: Call, stored: bool, text: string): seq<Turn> {
    if stored && c.Post? then s.record + [Turn(c.opId, eng.cfg.persona, TURN_POST, text, s.clock)] else s.record
  }

  ghost function Apply(window: int, s: World, a: Action): World
    requires Enabled(window, s, a)
  {
    match a
    case Tick(d) => s.(clock := s.clock + d)
    case Foreign(t) => s.(record := s.record + [t])
    case Deliver(e, cfg, w) =>
      var eng := Engine(cfg, w, Start(cfg, w), s.clock);
      s.(engines := s.engines[e := eng], finished := Conclude(s.finished, eng, Quiet))
    case Act(e, c, stored, text) =>
      var eng := Moved(s, s.engines[e], c);
      World(Kept(s, s.engines[e], c, stored, text), s.clock, s.engines[e := eng],
            Conclude(s.finished, eng, EndingOf(eng, c, stored)))
    case Crash(e) => s.(engines := s.engines - {e})
  }

  /** The world after a whole run; None when some action was not enabled. */
  ghost function Play(window: int, acts: seq<Action>): Option<World> {
    if acts == [] then Some(Init)
    else
      var s := Play(window, acts[..|acts| - 1]);
      if s.Some? && Enabled(window, s.value, acts[|acts| - 1]) then Some(Apply(window, s.value, acts[|acts| - 1]))
          else None
  }

  /*** What every step keeps ***/

  ghost predicate Stamped(s: World) {
    && (forall i, j | 0 <= i < j < |s.record| :: s.record[i].timestamp <= s.record[j].timestamp)
    && (forall t | t in s.record :: t.timestamp <= s.clock)
  }

  /** Only instances publish outcome ids, under their own persona, and only for triggers already there. */
  ghost predicate OutcomeShape(record: seq<Turn>, i: nat)
    requires i < |record|
  {
    match record[i].opId
    case Fresh(_) => true
    case External(_) => false
    case Outcome(t, p) => IsOwn(record[i], p) && (t.External? || t in Ids(record[..i]))
  }

  ghost predicate Shaped(record: seq<Turn>) {
    forall i | 0 <= i < |record| :: OutcomeShape(record, i)
  }

  ghost predicate EngineOk(s: World, eng: Engine) {
    && TriggerKnown(s.record, eng.wake)
    && (InFlight(eng.phase) ==>
          && eng.phase.seen <= s.record
          && OutcomeId(eng.cfg, eng.wake) !in Ids(eng.phase.seen)
          && (forall i | |eng.phase.seen| <= i < |s.record| :: s.record[i].timestamp >= eng.readAt))
  }

  ghost predicate Inv(s: World) {
    && Stamped(s) && UniqueIds(s.record) && Shaped(s.record)
    && forall e | e in s.engines :: EngineOk(s, s.engines[e])
  }

  lemma ShapeAppend(record: seq<Turn>, t: Turn)
    requires Shaped(record)
    requires match t.opId case Fresh(_) => true case External(_) => false
                          case Outcome(u, p) => IsOwn(t, p) && (u.External? || u in Ids(record))
    ensures Shaped(record + [t])
  {
    forall i | 0 <= i < |record + [t]| ensures OutcomeShape(record + [t], i) {
      if i < |record| {
        assert OutcomeShape(record, i);
        assert (record + [t])[..i] == record[..i];
      } else {
        assert (record + [t])[..i] == record;
      }
    }
  }

  /** A turn appended at the current clock under an unused id keeps everything but the shape. */
  lemma AppendKeeps(s: World, s': World, t: Turn)
    requires Inv(s) && s' == s.(record := s.record + [t])
    requires t.timestamp == s.clock && t.opId !in Ids(s.record) && Shaped(s'.record)
    requires forall e | e in s.engines && InFlight(s.engines[e].phase) :: s.engines[e].readAt <= s.clock
    ensures Inv(s')
  {
    forall e | e in s.engines ensures EngineOk(s', s.engines[e]) {
      assert EngineOk(s, s.engines[e]);
    }
    forall i | 0 <= i < |s.record| ensures s'.record[i].opId != t.opId {
      assert s.record[i] in s.record;
    }
  }

  ghost predicate ReadsPast(s: World) {
    forall e | e in s.engines :: s.engines[e].readAt <= s.clock
  }

  /** The heart of "at most one outcome": the snapshot an instance holds never contains its outcome id,
      because comparing snapshots would have taken that very turn for an answer. */
  lemma NextSnapshotIsClear(s: World, eng: Engine, c: Call, stored: bool, window: int)
    requires Inv(s) && EngineOk(s, eng)
    requires Next(eng.cfg, eng.wake, eng.phase, c).Some? && Answers(window, s, eng, c, stored)
    ensures InFlight(Next(eng.cfg, eng.wake, eng.phase, c).value) ==>
              && Next(eng.cfg, eng.wake, eng.phase, c).value.seen == (if Shows(c) then s.record else eng.phase.seen)
              && OutcomeId(eng.cfg, eng.wake) !in Ids(Next(eng.cfg, eng.wake, eng.phase, c).value.seen)
  {
    forall t | t in s.record && t.opId.Outcome? ensures IsOwn(t, t.opId.persona) {
      OutcomesAreOwn(s.record, t);
    }
  }

  lemma OutcomesAreOwn(record: seq<Turn>, t: Turn)
    requires Shaped(record) && t in record && t.opId.Outcome?
    ensures IsOwn(t, t.opId.persona)
  {
    var i :| 0 <= i < |record| && record[i] == t;
    assert OutcomeShape(record, i);
  }

  /** A stored post is never a second copy. */
  lemma StoredPostIsNew(s: World, eng: Engine, id: OpId, window: int)
    requires Inv(s) && EngineOk(s, eng) && eng.phase.Posting? && id == OutcomeId(eng.cfg, eng.wake)
    requires !Dropped(window, s, id) && s.clock - eng.readAt < window
    ensures id !in Ids(s.record)
  {
    forall t | t in s.record ensures t.opId != id {
      var i :| 0 <= i < |s.record| && s.record[i] == t;
      if i < |eng.phase.seen| {
        assert eng.phase.seen[i] in eng.phase.seen;
      }
    }
  }

  lemma ActKeeps(window: int, s: World, e: nat, c: Call, stored: bool, text: string)
    requires Inv(s) && ReadsPast(s) && Enabled(window, s, Act(e, c, stored, text))
    ensures Inv(Apply(window, s, Act(e, c, stored, text)))
  {
    var eng := s.engines[e];
    var s' := Apply(window, s, Act(e, c, stored, text));
    assert EngineOk(s, eng);
    NextSnapshotIsClear(s, eng, c, stored, window);
    if stored {
      StoredPostIsNew(s, eng, c.opId, window);
      var t := Turn(c.opId, eng.cfg.persona, TURN_POST, text, s.clock);
      ShapeAppend(s.record, t);
      AppendKeeps(s, s.(record := s.record + [t]), t);
    }
    var mid := s.(record := s'.record);
    forall f | f in s'.engines ensures EngineOk(s', s'.engines[f]) {
      if f != e { assert EngineOk(mid, s.engines[f]); }
    }
  }

  lemma StepKeeps(window: int, s: World, a: Action)
    requires Inv(s) && ReadsPast(s) && Enabled(window, s, a)
    ensures Inv(Apply(window, s, a)) && ReadsPast(Apply(window, s, a))
  {
    var s' := Apply(window, s, a);
    match a
    case Tick(_) =>
      forall e | e in s'.engines ensures EngineOk(s', s'.engines[e]) { assert EngineOk(s, s.engines[e]); }
    case Foreign(t) =>
      ShapeAppend(s.record, t);
      AppendKeeps(s, s', t);
    case Deliver(e, cfg, w) =>
      forall f | f in s'.engines ensures EngineOk(s', s'.engines[f]) {
        if f != e { assert EngineOk(s, s.engines[f]); }
      }
    case Act(e, c, stored, text) => ActKeeps(window, s, e, c, stored, text);
    case Crash(e) =>
      forall f | f in s'.engines ensures EngineOk(s', s'.engines[f]) { assert EngineOk(s, s.engines[f]); }
  }

  lemma {:induction false} Reachable(window: int, acts: seq<Action>)
    requires Play(window, acts).Some?
    ensures Inv(Play(window, acts).value) && ReadsPast(Play(window, acts).value)
  {
    if acts != [] {
      Reachable(window, acts[..|acts| - 1]);
      StepKeeps(window, Play(window, acts[..|acts| - 1]).value, acts[|acts| - 1]);
    }
  }

  /** At most one outcome per trigger and persona, in every run: any number of instances of one persona,
      zombies, crashes, restarts and duplicate deliveries included. */
  lemma AtMostOneOutcome(window: int, acts: seq<Action>, trigger: OpId, persona: string, i: nat, j: nat)
    requires Play(window, acts).Some?
    requires i < |Play(window, acts).value.record| && j < |Play(window, acts).value.record|
    requires Play(window, acts).value.record[i].opId == WakeOpID(trigger, persona)
    requires Play(window, acts).value.record[j].opId == WakeOpID(trigger, persona)
    ensures i == j
  {
    Reachable(window, acts);
  }
}
