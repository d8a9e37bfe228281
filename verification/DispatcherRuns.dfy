/**
 One dispatcher's goroutines, interleaved at its locked sections (dispatcher/dispatcher.go): the scan
 goroutine between slotFree and take or handBack, engine goroutines that stop on their own or are
 cancelled, and any number of drains, over one process life.
*/
module DispatcherRuns {
  import opened Wrappers
  import opened Placement

  /** The scan goroutine, between the two critical sections of startServe. */
  datatype Pc = Idle | Checked(item: string, persona: string, at: int)

  /** Leaving: the engine stopped by itself, uncancelled, and its goroutine is about to release. Ended: its
      done channel is closed. */
  datatype Life = Running | Leaving | Ended

  datatype Engine = Engine(item: string, persona: string, life: Life, cancelled: bool)

  /** A call of Drain: what its locked section collected, and whether it has returned nil. */
  datatype Drain = Drain(waits: set<nat>, cancelled: bool, returned: bool)

  datatype HandBack = HandBack(item: string, at: int)

  datatype Proc = Proc(local: Local, clock: int, pc: Pc, engines: map<nat, Engine>, released: set<nat>,
                       drains: seq<Drain>, handBacks: seq<HandBack>)

  const Init := Proc(Local(true, map[], map[]), 0, Idle, map[], {}, [], [])

  datatype Action =
    | Tick(d: nat)
    | Check(item: string, persona: string)
    | GiveUp
    | TakeSlot(id: nat)
    | StopAlone(id: nat)
    | ReleaseSlot(id: nat)
    | End(id: nat)
    | BeginDrain
    | CancelDrain(k: nat)
    | ReturnNil(k: nat)

  predicate Enabled(s: Proc, a: Action) {
    match a
    case Tick(_) => true
    case Check(item, persona) => s.pc.Idle? && Free(s.local, item, persona, s.clock)
    case GiveUp => s.pc.Checked?
    case TakeSlot(id) => s.pc.Checked? && id !in s.engines
    case StopAlone(id) => id in s.engines && s.engines[id].life.Running? && !s.engines[id].cancelled
    case ReleaseSlot(id) => id in s.engines && s.engines[id].life.Leaving?
    case End(id) => id in s.engines && s.engines[id].life.Running? && s.engines[id].cancelled
    case BeginDrain => true
    case CancelDrain(k) => k < |s.drains|
    case ReturnNil(k) => k < |s.drains| && s.drains[k].cancelled && AllEnded(s, s.drains[k].waits)
  }

  predicate AllEnded(s: Proc, ids: set<nat>) {
    forall id | id in ids :: id in s.engines && s.engines[id].life.Ended?
  }

  function ServedIds(l: Local): set<nat> { set i | i in l.served :: l.served[i].id }

  function CancelAll(engines: map<nat, Engine>, ids: set<nat>): map<nat, Engine> {
    map id | id in engines :: if id in ids then engines[id].(cancelled := true) else engines[id]
  }

  function Apply(rb: int, s: Proc, a: Action): Proc
    requires Enabled(s, a)
  {
    match a
    case Tick(d) => s.(clock := s.clock + d)
    case Check(item, persona) => s.(pc := Checked(item, persona, s.clock))
    case GiveUp =>
      s.(local := BackOffUntil(s.local, s.pc.item, s.clock + rb), pc := Idle,
         handBacks := s.handBacks + [HandBack(s.pc.item, s.clock)])
    case TakeSlot(id) =>
      if CanTake(s.local, s.pc.item) then
        s.(local := Taken(s.local, s.pc.item, Serve(id, s.pc.persona)), pc := Idle,
           engines := s.engines[id := Engine(s.pc.item, s.pc.persona, Running, false)])
      else s.(pc := Idle)
    case StopAlone(id) => s.(engines := s.engines[id := s.engines[id].(life := Leaving)])
    case ReleaseSlot(id) =>
      s.(local := Released(s.local, s.engines[id].item, s.clock + rb),
         engines := s.engines[id := s.engines[id].(life := Ended)],
         released := if id in ServedIds(s.local) then s.released + {id} else s.released)
    case End(id) => s.(engines := s.engines[id := s.engines[id].(life := Ended)])
    case BeginDrain => s.(local := Stopped(s.local), drains := s.drains + [Drain(ServedIds(s.local), false, false)])
    case CancelDrain(k) =>
      s.(engines := CancelAll(s.engines, s.drains[k].waits), drains := s.drains[k := s.drains[k].(cancelled := true)])
    case ReturnNil(k) => s.(drains := s.drains[k := s.drains[k].(returned := true)])
  }

  function Play(rb: int, acts: seq<Action>): Option<Proc> {
    if acts == [] then Some(Init)
    else
      var s := Play(rb, acts[..|acts| - 1]);
      if s.Some? && Enabled(s.value, acts[|acts| - 1]) then Some(Apply(rb, s.value, acts[|acts| - 1])) else None
  }

  /*** One engine per persona, and who holds every engine ***/

  ghost predicate OnePerPersona(l: Local) {
    forall i, j | i in l.served && j in l.served && i != j :: l.served[i].persona != l.served[j].persona
  }

  /** The scan goroutine's check still holds when it takes: everyone else only removes. */
  ghost predicate CheckHolds(s: Proc) {
    s.pc.Checked? ==> s.pc.item !in s.local.served && !Busy(s.local, s.pc.persona)
  }

  /** Every slot belongs to one known engine. */
  ghost predicate SlotsMatch(s: Proc) {
    forall i | i in s.local.served ::
      var id := s.local.served[i].id;
      id in s.engines && s.engines[id].item == i && !s.engines[id].life.Ended? && id !in s.released
  }

  function Collected(s: Proc): set<nat> { if s.drains == [] then {} else s.drains[0].waits }

  ghost predicate DrainsMatch(s: Proc) {
    && (s.local.taking <==> s.drains == [])
    && (!s.local.taking ==> s.local.served == map[])
    && (forall k | 1 <= k < |s.drains| :: s.drains[k].waits == {})
    && (forall k | 0 <= k < |s.drains| && s.drains[k].returned :: AllEnded(s, s.drains[k].waits))
  }

  /** The ledger: each engine ever taken is in exactly one place: served, released by itself, or on the
      wait list of the first drain. */
  ghost predicate Ledger(s: Proc) {
    && s.released !! Collected(s)
    && (forall id | id in s.engines :: id in ServedIds(s.local) || id in s.released || id in Collected(s))
    && (forall id | id in ServedIds(s.local) :: id !in s.released && id !in Collected(s))
    && (forall id | id in s.released :: id in s.engines && s.engines[id].life.Ended?)
    && (forall id | id in Collected(s) :: id in s.engines)
    && (forall id | id in s.engines && s.engines[id].cancelled :: id in Collected(s))
  }

  ghost predicate Inv(s: Proc) {
    OnePerPersona(s.local) && CheckHolds(s) && SlotsMatch(s) && DrainsMatch(s) && Ledger(s)
  }

  lemma StepKeeps(rb: int, s: Proc, a: Action)
    requires Inv(s) && Enabled(s, a)
    ensures Inv(Apply(rb, s, a))
  {
    var s' := Apply(rb, s, a);
    match a
    case TakeSlot(id) => TakeKeeps(rb, s, id);
    case ReleaseSlot(id) => ReleaseKeeps(rb, s, id);
    case BeginDrain => DrainKeeps(rb, s);
    case StopAlone(id) => assert ServedIds(s'.local) == ServedIds(s.local);
    case End(id) => EndKeeps(rb, s, id);
    case CancelDrain(k) => assert ServedIds(s'.local) == ServedIds(s.local);
    case ReturnNil(k) => assert ServedIds(s'.local) == ServedIds(s.local);
    case Tick(_) =>
    case Check(_, _) =>
    case GiveUp =>
  }

  lemma TakeKeeps(rb: int, s: Proc, id: nat)
    requires Inv(s) && Enabled(s, TakeSlot(id))
    ensures Inv(Apply(rb, s, TakeSlot(id)))
  {
    var s' := Apply(rb, s, TakeSlot(id));
    if CanTake(s.local, s.pc.item) {
      assert ServedIds(s'.local) == ServedIds(s.local) + {id} by {
        assert s'.local.served[s.pc.item].id == id;
        forall x | x in ServedIds(s.local) ensures x in ServedIds(s'.local) {
          var i :| i in s.local.served && s.local.served[i].id == x;
          assert i in s'.local.served && s'.local.served[i].id == x;
        }
      }
      assert id !in ServedIds(s.local);
    }
  }

  lemma ReleaseKeeps(rb: int, s: Proc, id: nat)
    requires Inv(s) && Enabled(s, ReleaseSlot(id))
    ensures Inv(Apply(rb, s, ReleaseSlot(id)))
  {
    var s' := Apply(rb, s, ReleaseSlot(id));
    var item := s.engines[id].item;
    if id in ServedIds(s.local) {
      var i :| i in s.local.served && s.local.served[i].id == id;
      assert i == item;
    }
    assert ServedIds(s'.local) == ServedIds(s.local) - {id} by {
      forall x | x in ServedIds(s.local) && x != id ensures x in ServedIds(s'.local) {
        var i :| i in s.local.served && s.local.served[i].id == x;
        if i == item { OnlySlot(s, id, i); }
        assert i in s'.local.served && s'.local.served[i].id == x;
      }
    }
    forall p | Busy(s'.local, p) ensures Busy(s.local, p) {
      var i :| i in s'.local.served && s'.local.served[i].persona == p;
      assert i in s.local.served && s.local.served[i].persona == p;
    }
  }

  /** A leaving engine's slot is still its own: release never takes another engine's. */
  lemma OnlySlot(s: Proc, id: nat, i: string)
    requires Inv(s) && id in s.engines && s.engines[id].life.Leaving? && s.engines[id].item == i && i in s.local.served
    ensures s.local.served[i].id == id
  {
    if id in ServedIds(s.local) {
      var j :| j in s.local.served && s.local.served[j].id == id;
      assert j == i;
    }
  }

  lemma EndKeeps(rb: int, s: Proc, id: nat)
    requires Inv(s) && Enabled(s, End(id))
    ensures Inv(Apply(rb, s, End(id)))
  {
  }

  lemma DrainKeeps(rb: int, s: Proc)
    requires Inv(s)
    ensures Inv(Apply(rb, s, BeginDrain))
  {
    var s' := Apply(rb, s, BeginDrain);
    assert ServedIds(s'.local) == {};
    assert !s.local.taking ==> ServedIds(s.local) == {};
    assert forall x | x in ServedIds(s.local) :: x in s.engines;
  }

  lemma {:induction false} Reachable(rb: int, acts: seq<Action>)
    requires Play(rb, acts).Some?
    ensures Inv(Play(rb, acts).value)
  {
    if acts != [] {
      Reachable(rb, acts[..|acts| - 1]);
      StepKeeps(rb, Play(rb, acts[..|acts| - 1]).value, acts[|acts| - 1]);
    }
  }

  /** One engine per persona on a node, in every interleaving, although take rechecks only the item. */
  lemma OneEnginePerPersona(rb: int, acts: seq<Action>, i: string, j: string)
    requires Play(rb, acts).Some?
    requires i in Play(rb, acts).value.local.served && j in Play(rb, acts).value.local.served
    requires Play(rb, acts).value.local.served[i].persona == Play(rb, acts).value.local.served[j].persona
    ensures i == j
  {
    Reachable(rb, acts);
  }

  /** Drain conserves engines: every engine ever taken is served, or released itself, or is on the first
      drain's wait list, and only one of the three. */
  lemma EnginesAreConserved(rb: int, acts: seq<Action>, id: nat)
    requires Play(rb, acts).Some? && id in Play(rb, acts).value.engines
    ensures var s := Play(rb, acts).value;
            var served, released, collected := id in ServedIds(s.local), id in s.released, id in Collected(s);
            (served || released || collected) && !(served && released) && !(served && collected)
                && !(released && collected)
  {
    Reachable(rb, acts);
  }

  /** What a drain that returned nil proves. No later take succeeds; and no engine is running exactly when
      everything the first drain collected has ended, which the first drain waited for and a later one
      did not. */
  lemma DrainedMeansStopped(rb: int, acts: seq<Action>, k: nat)
    requires Play(rb, acts).Some? && k < |Play(rb, acts).value.drains| && Play(rb, acts).value.drains[k].returned
    ensures var s := Play(rb, acts).value;
            && (forall item :: !CanTake(s.local, item))
            && ((forall id | id in s.engines :: s.engines[id].life.Ended?) <==> AllEnded(s, s.drains[0].waits))
            && (k == 0 ==> forall id | id in s.engines :: s.engines[id].life.Ended?)
  {
    Reachable(rb, acts);
    var s := Play(rb, acts).value;
    forall id | id in s.engines && AllEnded(s, s.drains[0].waits) ensures s.engines[id].life.Ended? {
      assert id in s.released || id in Collected(s);
    }
  }

  /** What a caller can rely on: once the first drain has returned nil, no engine runs, whatever any later
      drain returns and however long the process goes on. */
  lemma StoppedOnceFirstReturned(rb: int, acts: seq<Action>, more: seq<Action>)
    requires Play(rb, acts).Some? && Play(rb, acts + more).Some?
    requires Play(rb, acts).value.drains != [] && Play(rb, acts).value.drains[0].returned
    ensures forall id | id in Play(rb, acts + more).value.engines ::
              Play(rb, acts + more).value.engines[id].life.Ended?
    ensures Play(rb, acts + more).value.engines.Keys == Play(rb, acts).value.engines.Keys
    decreases |more|
  {
    if more == [] {
      assert acts + more == acts;
      DrainedMeansStopped(rb, acts, 0);
    } else {
      var init := more[..|more| - 1];
      assert (acts + more)[..|acts + more| - 1] == acts + init;
      StoppedOnceFirstReturned(rb, acts, init);
      FirstDrainStays(rb, acts, init);
      Reachable(rb, acts + init);
    }
  }

  lemma {:induction false} FirstDrainStays(rb: int, acts: seq<Action>, more: seq<Action>)
    requires Play(rb, acts).Some? && Play(rb, acts + more).Some?
    requires Play(rb, acts).value.drains != [] && Play(rb, acts).value.drains[0].returned
    ensures Play(rb, acts + more).value.drains != [] && Play(rb, acts + more).value.drains[0].returned
  {
    if more == [] {
      assert acts + more == acts;
    } else {
      var init := more[..|more| - 1];
      assert (acts + more)[..|acts + more| - 1] == acts + init;
      FirstDrainStays(rb, acts, init);
    }
  }

  /** A second drain that returns nil while an engine still runs: it found nothing to wait for. */
  lemma SecondDrainProvesLess()
    ensures exists acts, id :: Play(1, acts).Some? && |Play(1, acts).value.drains| == 2
                               && Play(1, acts).value.drains[1].returned
                               && id in Play(1, acts).value.engines && Play(1, acts).value.engines[id].life.Running?
  {
    var a1 := [Check("w-1", "clerk")];
    var a2 := a1 + [TakeSlot(0)];
    var a3 := a2 + [BeginDrain];
    var a4 := a3 + [BeginDrain];
    var a5 := a4 + [CancelDrain(1)];
    var a6 := a5 + [ReturnNil(1)];
    assert a1[..0] == [] && a2[..1] == a1 && a3[..2] == a2 && a4[..3] == a3 && a5[..4] == a4 && a6[..5] == a5;
    assert Play(1, []) == Some(Init);
    var s1 := Apply(1, Init, Check("w-1", "clerk"));
    assert Play(1, a1) == Some(s1);
    var s2 := Apply(1, s1, TakeSlot(0));
    assert Play(1, a2) == Some(s2);
    var s3 := Apply(1, s2, BeginDrain);
    assert Play(1, a3) == Some(s3);
    var s4 := Apply(1, s3, BeginDrain);
    assert Play(1, a4) == Some(s4);
    assert ServedIds(s3.local) == {};
    var s5 := Apply(1, s4, CancelDrain(1));
    assert Play(1, a5) == Some(s5);
    var s6 := Apply(1, s5, ReturnNil(1));
    assert Play(1, a6) == Some(s6);
    assert s6.engines[0].life.Running?;
  }

  /*** No claim/abandon spin ***/

  ghost predicate Spaced(rb: int, hbs: seq<HandBack>) {
    forall i, j | 0 <= i < j < |hbs| && hbs[i].item == hbs[j].item :: hbs[i].at + rb <= hbs[j].at
  }

  ghost predicate BackedOffSince(rb: int, s: Proc) {
    && (forall h | h in s.handBacks ::
        h.at <= s.clock && h.item in s.local.backoff && s.local.backoff[h.item] >= h.at + rb)
    && (s.pc.Checked? ==>
        s.pc.at <= s.clock && forall h | h in s.handBacks && h.item == s.pc.item :: h.at + rb <= s.pc.at)
  }

  lemma StepSpaced(rb: int, s: Proc, a: Action)
    requires Spaced(rb, s.handBacks) && BackedOffSince(rb, s) && Enabled(s, a) && rb > 0
    ensures Spaced(rb, Apply(rb, s, a).handBacks) && BackedOffSince(rb, Apply(rb, s, a))
  {
    var s' := Apply(rb, s, a);
    if a.GiveUp? {
      forall i | 0 <= i < |s.handBacks| && s.handBacks[i].item == s.pc.item ensures s.handBacks[i].at + rb <= s.clock {
        assert s.handBacks[i] in s.handBacks;
      }
    }
  }

  lemma {:induction false} ReachableSpaced(rb: int, acts: seq<Action>)
    requires Play(rb, acts).Some? && rb > 0
    ensures Spaced(rb, Play(rb, acts).value.handBacks) && BackedOffSince(rb, Play(rb, acts).value)
  {
    if acts != [] {
      ReachableSpaced(rb, acts[..|acts| - 1]);
      StepSpaced(rb, Play(rb, acts[..|acts| - 1]).value, acts[|acts| - 1]);
    }
  }

  /** Hand-backs of one item among the first n, within [lo, hi]. */
  function CountWithin(hbs: seq<HandBack>, item: string, lo: int, hi: int, n: nat): nat
    requires n <= |hbs|
  {
    if n == 0 then 0
    else CountWithin(hbs, item, lo, hi, n - 1) + (if hbs[n - 1].item == item && lo <= hbs[n - 1].at <= hi then 1 else 0)
  }

  lemma {:induction false} NarrowCount(hbs: seq<HandBack>, item: string, lo: int, hi: int, less: int, n: nat)
    requires n <= |hbs| && forall i | 0 <= i < n && hbs[i].item == item :: hbs[i].at <= less
    ensures CountWithin(hbs, item, lo, hi, n) <= CountWithin(hbs, item, lo, less, n)
  {
    if n > 0 { NarrowCount(hbs, item, lo, hi, less, n - 1); }
  }

  lemma OneMoreGap(fewer: nat, bound: nat, rb: nat, width: int)
    requires fewer <= bound && (bound > 0 ==> (bound - 1) * rb <= width - rb) && (bound == 0 ==> width >= 0)
    ensures fewer * rb <= width
  {
    if bound > 0 {
      assert (bound - 1) * rb + rb == bound * rb;
      Monotone(fewer, bound, rb);
    } else {
      assert fewer * rb == 0;
    }
  }

  lemma Monotone(a: nat, b: nat, c: nat)
    requires a <= b
    ensures a * c <= b * c
  {}

  lemma {:induction false} SpacedCount(rb: nat, hbs: seq<HandBack>, item: string, lo: int, hi: int, n: nat)
    requires Spaced(rb, hbs) && n <= |hbs|
    ensures var count := CountWithin(hbs, item, lo, hi, n); count > 0 ==> (count - 1) * rb <= hi - lo
    decreases n
  {
    if n > 0 {
      var h := hbs[n - 1];
      if h.item == item && lo <= h.at <= hi {
        NarrowCount(hbs, item, lo, hi, hi - rb, n - 1);
        SpacedCount(rb, hbs, item, lo, hi - rb, n - 1);
        OneMoreGap(CountWithin(hbs, item, lo, hi, n - 1), CountWithin(hbs, item, lo, hi - rb, n - 1), rb, hi - lo);
      } else {
        SpacedCount(rb, hbs, item, lo, hi, n - 1);
      }
    }
  }

  /** No spin: the hand-backs of one placement are a backoff apart, so count of them within any stretch of
      one process life take at least (count - 1) backoffs, whether races or resumes led there. */
  lemma NoSpin(rb: nat, acts: seq<Action>, item: string, from: int, stretch: nat)
    requires Play(rb, acts).Some? && rb > 0
    ensures var hbs := Play(rb, acts).value.handBacks;
            && Spaced(rb, hbs)
            && var count := CountWithin(hbs, item, from, from + stretch, |hbs|);
               count > 0 ==> (count - 1) * rb <= stretch
  {
    ReachableSpaced(rb, acts);
    var hbs := Play(rb, acts).value.handBacks;
    SpacedCount(rb, hbs, item, from, from + stretch, |hbs|);
  }
}
