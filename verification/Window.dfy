/**
 The sliding-window bound, over the runs of module Engines: when one persona runs one instance at a
 time, posts only through its wakes, and its harness posts for itself at most once a wake, no interval
 as long as the window ever holds more of its turns than the bound, although the bound is checked once,
 at admission, and the turn lands later.
*/
module Window {
  import opened Wrappers
  import opened Correlate
  import opened WakeProtocol
  import opened Engines

  /** A persona with its window bound: at most `max` own turns within `per`. */
  datatype Paced = Paced(persona: string, max: int, per: int)

  ghost predicate Live(s: World, p: Paced, e: nat) {
    e in s.engines && s.engines[e].cfg.persona == p.persona && !s.engines[e].phase.Done?
  }

  /** How many of the first n turns are the persona's own. */
  function OwnTo(view: seq<Turn>, persona: string, n: nat): nat
    requires n <= |view|
  {
    if n == 0 then 0 else OwnTo(view, persona, n - 1) + (if IsOwn(view[n - 1], persona) then 1 else 0)
  }

  /** The record holds `k` own turns an instance has not seen. */
  ghost predicate Unseen(s: World, p: Paced, eng: Engine, k: nat)
    requires InFlight(eng.phase)
  {
    |eng.phase.seen| <= |s.record|
    && OwnTo(s.record, p.persona, |s.record|) == OwnTo(s.record, p.persona, |eng.phase.seen|) + k
  }

  /** What the sequential engine and the harness keep to. */
  ghost predicate Disciplined(s: World, p: Paced, a: Action) {
    && (a.Deliver? && a.cfg.persona == p.persona ==>
          && !a.cfg.unbudgeted && a.cfg.budget.windowMax == p.max && a.cfg.budget.windowPer == p.per
          && forall f :: Live(s, p, f) ==> f == a.e)
    && (a.Foreign? && IsOwn(a.t, p.persona) ==>
          exists e :: Live(s, p, e) && MayBeBehind(s.engines[e].phase) && Unseen(s, p, s.engines[e], 0))
  }

  ghost predicate DisciplinedRun(window: int, p: Paced, acts: seq<Action>) {
    acts == [] ||
    var init := acts[..|acts| - 1];
    DisciplinedRun(window, p, init) && Play(window, init).Some?
    && Disciplined(Play(window, init).value, p, acts[|acts| - 1])
  }

  lemma {:induction false} PrefixCounts(a: seq<Turn>, b: seq<Turn>, persona: string, cut: int, n: nat)
    requires n <= |a| && a <= b
    ensures OwnAfterTo(a, persona, cut, n) == OwnAfterTo(b, persona, cut, n)
    ensures OwnTo(a, persona, n) == OwnTo(b, persona, n)
  {
    if n > 0 { PrefixCounts(a, b, persona, cut, n - 1); }
  }

  lemma {:induction false} LaterCutCountsFewer(view: seq<Turn>, persona: string, cut: int, later: int, n: nat)
    requires cut <= later && n <= |view|
    ensures OwnAfterTo(view, persona, later, n) <= OwnAfterTo(view, persona, cut, n)
  {
    if n > 0 { LaterCutCountsFewer(view, persona, cut, later, n - 1); }
  }

  /** Past n, the stamped own turns are some of the own turns. */
  lemma {:induction false} Gap(view: seq<Turn>, persona: string, cut: int, n: nat, m: nat)
    requires n <= m <= |view|
    ensures OwnAfterTo(view, persona, cut, n) <= OwnAfterTo(view, persona, cut, m)
    ensures OwnAfterTo(view, persona, cut, m) - OwnAfterTo(view, persona, cut, n)
              <= OwnTo(view, persona, m) - OwnTo(view, persona, n)
  {
    if n < m { Gap(view, persona, cut, n, m - 1); }
  }

  lemma {:induction false} NoOwnBetween(view: seq<Turn>, persona: string, n: nat, m: nat)
    requires n <= m <= |view| && forall i | n <= i < m :: !IsOwn(view[i], persona)
    ensures OwnTo(view, persona, m) == OwnTo(view, persona, n)
  {
    if n < m { NoOwnBetween(view, persona, n, m - 1); }
  }

  predicate MayBeBehind(ph: Phase) { ph.Running? || ph.Checking? }

  predicate PastAdmission(ph: Phase) { InFlight(ph) && !ph.Admitting? }

  ghost predicate EnginePaced(s: World, p: Paced, eng: Engine) {
    && !eng.cfg.unbudgeted && eng.cfg.budget.windowMax == p.max && eng.cfg.budget.windowPer == p.per
    && (InFlight(eng.phase) ==> Unseen(s, p, eng, 0) || (MayBeBehind(eng.phase) && Unseen(s, p, eng, 1)))
    && (PastAdmission(eng.phase) ==> OwnAfter(eng.phase.seen, p.persona, s.clock - p.per) < p.max)
  }

  /** At every own turn, the window ending there holds at most `max`. */
  ghost predicate RecordPaced(record: seq<Turn>, p: Paced) {
    forall i | 0 <= i < |record| && IsOwn(record[i], p.persona) :: PacedAt(record, p, i)
  }

  ghost predicate PacedAt(record: seq<Turn>, p: Paced, i: nat)
    requires i < |record|
  {
    OwnAfterTo(record, p.persona, record[i].timestamp - p.per, i + 1) <= p.max
  }

  ghost predicate Alone(s: World, p: Paced) {
    forall e, f :: Live(s, p, e) && Live(s, p, f) ==> e == f
  }

  ghost predicate EnginesPaced(s: World, p: Paced) {
    forall e :: Live(s, p, e) ==> EnginePaced(s, p, s.engines[e])
  }

  ghost predicate PacedWorld(s: World, p: Paced) {
    RecordPaced(s.record, p) && Alone(s, p) && EnginesPaced(s, p)
  }

  lemma AloneKeeps(window: int, s: World, p: Paced, a: Action)
    requires Alone(s, p) && Enabled(window, s, a) && Disciplined(s, p, a)
    ensures Alone(Apply(window, s, a), p)
  {
    var s' := Apply(window, s, a);
    forall f | Live(s', p, f) && !(a.Deliver? && f == a.e) ensures Live(s, p, f) {}
  }

  lemma RecordPacedAppend(record: seq<Turn>, p: Paced, t: Turn)
    requires RecordPaced(record, p)
    requires IsOwn(t, p.persona) ==> OwnAfter(record, p.persona, t.timestamp - p.per) < p.max
    ensures RecordPaced(record + [t], p)
  {
    forall i | 0 <= i < |record + [t]| && IsOwn((record + [t])[i], p.persona) ensures PacedAt(record + [t], p, i) {
      if i < |record| {
        assert PacedAt(record, p, i);
        PrefixCounts(record, record + [t], p.persona, record[i].timestamp - p.per, i + 1);
      } else {
        PrefixCounts(record, record + [t], p.persona, t.timestamp - p.per, |record|);
      }
    }
  }

  /** An instance with nothing unseen has room for one more own turn. */
  lemma RoomForOne(s: World, p: Paced, eng: Engine)
    requires InFlight(eng.phase) && eng.phase.seen <= s.record && Unseen(s, p, eng, 0)
    requires OwnAfter(eng.phase.seen, p.persona, s.clock - p.per) < p.max
    ensures OwnAfter(s.record, p.persona, s.clock - p.per) < p.max
  {
    var n := |eng.phase.seen|;
    PrefixCounts(eng.phase.seen, s.record, p.persona, s.clock - p.per, n);
    Gap(s.record, p.persona, s.clock - p.per, n, |s.record|);
  }

  lemma UnseenAppend(s: World, s': World, p: Paced, eng: Engine, t: Turn, k: nat)
    requires InFlight(eng.phase) && Unseen(s, p, eng, k) && s'.record == s.record + [t]
    ensures Unseen(s', p, eng, k + if IsOwn(t, p.persona) then 1 else 0)
  {
    PrefixCounts(s.record, s'.record, p.persona, 0, |s.record|);
    PrefixCounts(s.record, s'.record, p.persona, 0, |eng.phase.seen|);
  }

  /** A snapshot comparison that finds nothing leaves nothing unseen. */
  lemma NothingMissed(s: World, p: Paced, eng: Engine)
    requires UniqueIds(s.record) && InFlight(eng.phase) && eng.phase.seen <= s.record
    requires FirstNewOwn(eng.phase.seen, s.record, p.persona).None?
    ensures Unseen(s, p, eng, 0)
  {
    var seen := eng.phase.seen;
    forall i | |seen| <= i < |s.record| ensures !IsOwn(s.record[i], p.persona) {
      assert s.record[i] in s.record && !NewOwn(s.record[i], seen, p.persona);
      forall u | u in seen ensures u.opId != s.record[i].opId {
        var j :| 0 <= j < |seen| && seen[j] == u;
        assert s.record[j] == u;
      }
    }
    NoOwnBetween(s.record, p.persona, |seen|, |s.record|);
  }

  lemma EngineAppend(s: World, s': World, p: Paced, eng: Engine, t: Turn)
    requires EnginePaced(s, p, eng) && s'.record == s.record + [t] && s'.clock == s.clock
    requires IsOwn(t, p.persona) && InFlight(eng.phase) ==>
               MayBeBehind(eng.phase) && Unseen(s, p, eng, 0)
    ensures EnginePaced(s', p, eng)
  {
    if InFlight(eng.phase) {
      if Unseen(s, p, eng, 0) { UnseenAppend(s, s', p, eng, t, 0); } else { UnseenAppend(s, s', p, eng, t, 1); }
    }
  }

  /** A turn that is not the persona's own changes nobody's pace. */
  lemma OtherTurnPaced(s: World, s': World, p: Paced, t: Turn)
    requires EnginesPaced(s, p) && s' == s.(record := s.record + [t]) && !IsOwn(t, p.persona)
    ensures EnginesPaced(s', p)
  {
    forall e | Live(s', p, e) ensures EnginePaced(s', p, s'.engines[e]) {
      assert Live(s, p, e);
      EngineAppend(s, s', p, s.engines[e], t);
    }
  }

  lemma ForeignPaced(window: int, s: World, p: Paced, t: Turn)
    requires Inv(s) && PacedWorld(s, p) && Enabled(window, s, Foreign(t)) && Disciplined(s, p, Foreign(t))
    ensures RecordPaced(s.record + [t], p) && EnginesPaced(Apply(window, s, Foreign(t)), p)
  {
    var s' := Apply(window, s, Foreign(t));
    if IsOwn(t, p.persona) {
      var e :| Live(s, p, e) && MayBeBehind(s.engines[e].phase) && Unseen(s, p, s.engines[e], 0);
      assert EngineOk(s, s.engines[e]);
      RoomForOne(s, p, s.engines[e]);
      EngineAppend(s, s', p, s.engines[e], t);
      forall f | Live(s', p, f) ensures f == e { assert Live(s, p, f); }
    } else {
      OtherTurnPaced(s, s', p, t);
    }
    RecordPacedAppend(s.record, p, t);
  }

  /** The first read of the persona's own instance. */
  lemma FirstReadPaced(s: World, p: Paced, eng: Engine, c: Call)
    requires EnginePaced(s, p, eng) && eng.phase.Opening? && Shows(c) && c.view.value == s.record
    requires Next(eng.cfg, eng.wake, eng.phase, c).Some? && InFlight(Moved(s, eng, c).phase)
    ensures EnginePaced(s, p, Moved(s, eng, c))
  {
    assert Moved(s, eng, c).phase == Admitting(s.record);
  }

  /** A later read: an instance that goes on has missed nothing. */
  lemma CheckPaced(s: World, p: Paced, eng: Engine, c: Call)
    requires Inv(s) && EngineOk(s, eng) && EnginePaced(s, p, eng) && eng.cfg.persona == p.persona
    requires eng.phase.Checking? && Shows(c) && c.view.value == s.record
    requires Next(eng.cfg, eng.wake, eng.phase, c).Some? && InFlight(Moved(s, eng, c).phase)
    ensures EnginePaced(s, p, Moved(s, eng, c))
  {
    assert Moved(s, eng, c).phase == AfterCheck(eng.cfg, eng.wake, eng.phase, s.record);
    NothingMissed(s, p, eng);
    RoomForOne(s, p, eng);
  }

  /** Any other call of the persona's own instance. */
  lemma CallPaced(s: World, p: Paced, eng: Engine, c: Call)
    requires EnginePaced(s, p, eng) && eng.cfg.persona == p.persona && p.max > 0
    requires InFlight(eng.phase) && !Shows(c) && (c.Clock? ==> c.now == s.clock)
    requires Next(eng.cfg, eng.wake, eng.phase, c).Some?
    requires !Moved(s, eng, c).phase.Done?
    ensures EnginePaced(s, p, Moved(s, eng, c))
  {
    var eng' := Moved(s, eng, c);
    assert eng'.phase.seen == eng.phase.seen;
    assert forall k: nat :: Unseen(s, p, eng, k) ==> Unseen(s, p, eng', k);
  }

  lemma OwnMovePaced(window: int, s: World, p: Paced, e: nat, c: Call, stored: bool)
    requires Inv(s) && EnginesPaced(s, p) && e in s.engines && s.engines[e].cfg.persona == p.persona && p.max > 0
    requires Next(s.engines[e].cfg, s.engines[e].wake, s.engines[e].phase, c).Some?
    requires Answers(window, s, s.engines[e], c, stored)
    ensures !Moved(s, s.engines[e], c).phase.Done? ==> EnginePaced(s, p, Moved(s, s.engines[e], c))
  {
    var eng := s.engines[e];
    assert Live(s, p, e) && EngineOk(s, eng);
    if !Moved(s, eng, c).phase.Done? {
      if !Shows(c) { CallPaced(s, p, eng, c); }
      else if eng.phase.Checking? { CheckPaced(s, p, eng, c); }
      else { FirstReadPaced(s, p, eng, c); }
    }
  }

  lemma ActPaced(window: int, s: World, p: Paced, e: nat, c: Call, stored: bool, text: string)
    requires Inv(s) && PacedWorld(s, p) && p.max > 0 && Enabled(window, s, Act(e, c, stored, text))
    ensures RecordPaced(Kept(s, s.engines[e], c, stored, text), p)
    ensures EnginesPaced(Apply(window, s, Act(e, c, stored, text)), p)
  {
    if stored { StoredActPaced(window, s, p, e, c, text); } else { UnstoredActPaced(window, s, p, e, c, text); }
  }

  lemma StoredActPaced(window: int, s: World, p: Paced, e: nat, c: Call, text: string)
    requires Inv(s) && PacedWorld(s, p) && p.max > 0 && Enabled(window, s, Act(e, c, true, text))
    ensures RecordPaced(Kept(s, s.engines[e], c, true, text), p)
    ensures EnginesPaced(Apply(window, s, Act(e, c, true, text)), p)
  {
    StoredPaced(window, s, p, e, c, text);
    OthersPaced(s, Apply(window, s, Act(e, c, true, text)), p, e);
  }

  lemma UnstoredActPaced(window: int, s: World, p: Paced, e: nat, c: Call, text: string)
    requires Inv(s) && PacedWorld(s, p) && p.max > 0 && Enabled(window, s, Act(e, c, false, text))
    ensures RecordPaced(Kept(s, s.engines[e], c, false, text), p)
    ensures EnginesPaced(Apply(window, s, Act(e, c, false, text)), p)
  {
    var eng := Moved(s, s.engines[e], c);
    if s.engines[e].cfg.persona == p.persona { OwnMovePaced(window, s, p, e, c, false); }
    OneMovePaced(s, Apply(window, s, Act(e, c, false, text)), p, e, eng);
  }

  /** One engine moved; record and clock stood still. */
  lemma OneMovePaced(s: World, s': World, p: Paced, e: nat, eng: Engine)
    requires e in s.engines && s'.record == s.record && s'.clock == s.clock && s'.engines == s.engines[e := eng]
    requires EnginesPaced(s, p)
    requires eng.cfg.persona == p.persona && !eng.phase.Done? ==> EnginePaced(s, p, eng)
    ensures EnginesPaced(s', p)
  {
    forall f | Live(s', p, f) ensures EnginePaced(s', p, s'.engines[f]) {
      if f != e { assert Live(s, p, f); }
      SamePaced(s, s', p, s'.engines[f]);
    }
  }

  lemma SamePaced(s: World, s': World, p: Paced, eng: Engine)
    requires s'.record == s.record && s'.clock == s.clock
    ensures EnginePaced(s', p, eng) <==> EnginePaced(s, p, eng)
  {}

  lemma StoredPaced(window: int, s: World, p: Paced, e: nat, c: Call, text: string)
    requires Inv(s) && PacedWorld(s, p) && p.max > 0 && e in s.engines && c.Post? && s.engines[e].phase.Posting?
    ensures RecordPaced(Kept(s, s.engines[e], c, true, text), p)
    ensures forall f :: Live(s, p, f) && f != e ==>
              EnginePaced(s.(record := Kept(s, s.engines[e], c, true, text)), p, s.engines[f])
  {
    var eng := s.engines[e];
    var t := Turn(c.opId, eng.cfg.persona, TURN_POST, text, s.clock);
    if eng.cfg.persona == p.persona {
      assert EngineOk(s, eng) && Live(s, p, e);
      RoomForOne(s, p, eng);
    } else {
      var s' := s.(record := s.record + [t]);
      OtherTurnPaced(s, s', p, t);
      forall f | Live(s, p, f) ensures EnginePaced(s', p, s.engines[f]) { assert Live(s', p, f); }
    }
    RecordPacedAppend(s.record, p, t);
  }

  lemma OthersPaced(s: World, s': World, p: Paced, e: nat)
    requires e in s.engines && e in s'.engines && s'.clock == s.clock
    requires s'.engines == s.engines[e := s'.engines[e]]
    requires forall f :: Live(s, p, f) && f != e ==> EnginePaced(s.(record := s'.record), p, s.engines[f])
    requires Live(s', p, e) ==> EnginePaced(s', p, s'.engines[e])
    ensures EnginesPaced(s', p)
  {
    forall f | Live(s', p, f) ensures EnginePaced(s', p, s'.engines[f]) {
      if f != e { assert Live(s, p, f); }
    }
  }

  lemma TickPaced(window: int, s: World, p: Paced, d: nat)
    requires EnginesPaced(s, p)
    ensures EnginesPaced(Apply(window, s, Tick(d)), p)
  {
    var s' := Apply(window, s, Tick(d));
    forall e | Live(s', p, e) ensures EnginePaced(s', p, s'.engines[e]) {
      assert Live(s, p, e);
      if PastAdmission(s.engines[e].phase) {
        var seen := s.engines[e].phase.seen;
        LaterCutCountsFewer(seen, p.persona, s.clock - p.per, s'.clock - p.per, |seen|);
      }
    }
  }

  lemma DeliverPaced(window: int, s: World, p: Paced, e: nat, cfg: Config, w: Wake)
    requires EnginesPaced(s, p) && Enabled(window, s, Deliver(e, cfg, w)) && Disciplined(s, p, Deliver(e, cfg, w))
    ensures EnginesPaced(Apply(window, s, Deliver(e, cfg, w)), p)
  {
    var s' := Apply(window, s, Deliver(e, cfg, w));
    forall f | Live(s', p, f) ensures EnginePaced(s', p, s'.engines[f]) {
      if f != e { assert Live(s, p, f); }
    }
  }

  lemma StepPaced(window: int, s: World, p: Paced, a: Action)
    requires Inv(s) && PacedWorld(s, p) && p.max > 0 && Enabled(window, s, a) && Disciplined(s, p, a)
    ensures PacedWorld(Apply(window, s, a), p)
  {
    AloneKeeps(window, s, p, a);
    match a
    case Tick(d) => TickPaced(window, s, p, d);
    case Foreign(t) => ForeignPaced(window, s, p, t);
    case Deliver(e, cfg, w) => DeliverPaced(window, s, p, e, cfg, w);
    case Act(e, c, stored, text) => ActPaced(window, s, p, e, c, stored, text);
    case Crash(e) =>
      var s' := Apply(window, s, a);
      forall f | Live(s', p, f) ensures EnginePaced(s', p, s'.engines[f]) { assert Live(s, p, f); }
  }

  lemma {:induction false} ReachablePaced(window: int, acts: seq<Action>, p: Paced)
    requires Play(window, acts).Some? && DisciplinedRun(window, p, acts) && p.max > 0
    ensures PacedWorld(Play(window, acts).value, p)
  {
    if acts != [] {
      var init := acts[..|acts| - 1];
      ReachablePaced(window, init, p);
      Reachable(window, init);
      StepPaced(window, Play(window, init).value, p, acts[|acts| - 1]);
    }
  }

  /** How many of the first n turns are the persona's own, stamped within (lo, hi]. */
  function OwnBetween(view: seq<Turn>, persona: string, lo: int, hi: int, n: nat): nat
    requires n <= |view|
  {
    if n == 0 then 0
    else
      var t := view[n - 1];
      OwnBetween(view, persona, lo, hi, n - 1) + (if IsOwn(t, persona) && lo < t.timestamp <= hi then 1 else 0)
  }

  lemma {:induction false} BetweenWithinAfter(view: seq<Turn>, persona: string, lo: int, hi: int, n: nat)
    requires n <= |view|
    ensures OwnBetween(view, persona, lo, hi, n) <= OwnAfterTo(view, persona, lo, n)
  {
    if n > 0 { BetweenWithinAfter(view, persona, lo, hi, n - 1); }
  }

  /** From the windows that end at a turn to every window. */
  lemma {:induction false} EveryInterval(record: seq<Turn>, p: Paced, at: int, n: nat)
    requires RecordPaced(record, p) && p.max > 0 && n <= |record|
    ensures OwnBetween(record, p.persona, at - p.per, at, n) <= p.max
  {
    if n > 0 {
      var last := record[n - 1];
      if IsOwn(last, p.persona) && last.timestamp <= at {
        assert PacedAt(record, p, n - 1);
        BetweenWithinAfter(record, p.persona, at - p.per, at, n);
        LaterCutCountsFewer(record, p.persona, last.timestamp - p.per, at - p.per, n);
      } else {
        EveryInterval(record, p, at, n - 1);
      }
    }
  }

  /** In every disciplined run, every interval (at - per, at] holds at most `max` of the persona's turns. */
  lemma WindowIsBounded(window: int, acts: seq<Action>, p: Paced, at: int)
    requires Play(window, acts).Some? && DisciplinedRun(window, p, acts) && p.max > 0
    ensures var record := Play(window, acts).value.record;
            OwnBetween(record, p.persona, at - p.per, at, |record|) <= p.max
  {
    ReachablePaced(window, acts, p);
    EveryInterval(Play(window, acts).value.record, p, at, |Play(window, acts).value.record|);
  }
}
