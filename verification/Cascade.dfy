/**
 The cascade bound: with a depth bound on every agent, whatever the agents and their harnesses do, each
 root of the record has at most sum over k = 1..D of A * (A - 1)^(k - 1) provable descendants, none of
 them more than D hops away. Over the same runs as module Engines.
*/
module Cascade {
  import opened Wrappers
  import opened Correlate
  import opened WakeProtocol
  import opened Engines

  predicate BoundedConfig(agents: set<string>, d: nat, cfg: Config) {
    cfg.persona in agents && !cfg.unbudgeted && 0 < cfg.budget.maxHops <= d
  }

  /** Every instance the run starts belongs to a named agent with a depth bound of at most d. */
  ghost predicate BoundedRun(agents: set<string>, d: nat, acts: seq<Action>) {
    "" !in agents && forall a | a in acts && a.Deliver? :: BoundedConfig(agents, d, a.cfg)
  }

  predicate PastAdmission(ph: Phase) { InFlight(ph) && !ph.Admitting? }

  /** The trigger an instance works on sits under the bound, and is not the instance's own op. */
  ghost predicate TriggerFits(record: seq<Turn>, d: nat, cfg: Config, w: Wake) {
    forall x | x in record && x.opId == w.opId :: x.author != cfg.persona && Hops(record, x) + 1 <= d
  }

  ghost predicate EngineFits(s: World, agents: set<string>, d: nat, eng: Engine) {
    && BoundedConfig(agents, d, eng.cfg)
    && (!eng.phase.Done? ==> eng.wake.author != eng.cfg.persona)
    && (InFlight(eng.phase) ==> eng.wake.opId.External? || eng.wake.opId in Ids(eng.phase.seen))
    && (PastAdmission(eng.phase) ==> TriggerFits(s.record, d, eng.cfg, eng.wake))
  }

  /** An outcome of the record: by an agent, never on that agent's own op, and under the bound. */
  ghost predicate OutcomeFits(record: seq<Turn>, agents: set<string>, d: nat, t: Turn) {
    t.opId.Outcome? ==>
      && t.opId.persona in agents
      && Hops(record, t) <= d
      && forall x | x in record && x.opId == t.opId.trigger :: x.author != t.opId.persona
  }

  ghost predicate Fits(s: World, agents: set<string>, d: nat) {
    && (forall e | e in s.engines :: EngineFits(s, agents, d, s.engines[e]))
    && (forall t | t in s.record :: OutcomeFits(s.record, agents, d, t))
  }

  lemma {:induction false} AncestorsComeFirst(record: seq<Turn>, i: nat, a: OpId)
    requires Shaped(record) && i < |record| && Ancestor(a, record[i].opId)
    ensures a.External? || a in Ids(record[..i])
  {
    assert OutcomeShape(record, i);
    var t := record[i].opId.trigger;
    if !t.External? && a != t {
      var x :| x in record[..i] && x.opId == t;
      var j :| 0 <= j < i && record[j] == x;
      AncestorsComeFirst(record, j, a);
      assert forall y | y in record[..j] :: y in record[..i];
    }
  }

  /** Hop counts never change once an op is on the record. */
  lemma HopsSettle(record: seq<Turn>, ext: seq<Turn>, x: Turn)
    requires Shaped(record + ext) && UniqueIds(record + ext) && x in record
    ensures Hops(record + ext, x) == Hops(record, x)
  {
    var all := record + ext;
    var i :| 0 <= i < |record| && record[i] == x;
    assert all[i] == x;
    forall t | t in ext ensures !Ancestor(t.opId, x.opId) {
      var k :| 0 <= k < |ext| && ext[k] == t;
      assert all[|record| + k] == t;
      assert OutcomeShape(all, |record| + k);
      if Ancestor(t.opId, x.opId) {
        AncestorsComeFirst(all, i, t.opId);
      }
    }
    ChainStable(record, ext, x);
  }

  /** An outcome sits one hop beyond its trigger; one whose trigger is off the record is a root. */
  lemma OutcomeHops(record: seq<Turn>, t: Turn, x: Turn)
    requires UniqueIds(record) && x in record && t.opId == WakeOpID(x.opId, t.author)
    ensures Hops(record, t) == Hops(record, x) + 1
    ensures Chain(record, t) == [t] + Chain(record, x)
  {
    ParentsAre(record, t);
    NotItsOwnTrigger(x.opId, t.author);
    assert x in Parents(record, t);
    var p := LastParent(record, t);
    SameIdSameTurn(record, p, x);
  }

  lemma NotItsOwnTrigger(id: OpId, persona: string)
    ensures Outcome(id, persona) != id
  {
    assert Depth(Outcome(id, persona)) == Depth(id) + 1;
  }

  lemma AppendFits(s: World, s': World, agents: set<string>, d: nat, t: Turn)
    requires Inv(s) && Inv(s') && Fits(s, agents, d) && s' == s.(record := s.record + [t])
    requires OutcomeFits(s'.record, agents, d, t)
    ensures Fits(s', agents, d)
  {
    OldOpsKeepHops(s.record, t);
    assert OutcomeShape(s'.record, |s.record|);
    forall x | x in s.record ensures OutcomeFits(s'.record, agents, d, x) {
      assert OutcomeFits(s.record, agents, d, x);
      if x.opId.Outcome? { TriggerPrecedes(s'.record, x, t); }
    }
    forall e | e in s.engines ensures EngineFits(s', agents, d, s.engines[e]) {
      assert EngineFits(s, agents, d, s.engines[e]) && EngineOk(s, s.engines[e]);
      if InFlight(s.engines[e].phase) { PrefixIds(s.engines[e].phase.seen, s.record); }
    }
  }

  lemma PrefixIds(seen: seq<Turn>, record: seq<Turn>)
    requires seen <= record
    ensures Ids(seen) <= Ids(record)
  {
    assert forall t | t in seen :: t in record;
  }

  lemma OldOpsKeepHops(record: seq<Turn>, t: Turn)
    requires Shaped(record + [t]) && UniqueIds(record + [t])
    ensures forall x | x in record :: Hops(record + [t], x) == Hops(record, x) && x.opId != t.opId
  {
    forall x | x in record ensures Hops(record + [t], x) == Hops(record, x) && x.opId != t.opId {
      HopsSettle(record, [t], x);
      var i :| 0 <= i < |record| && record[i] == x;
      assert (record + [t])[i] == x && (record + [t])[|record|] == t;
    }
  }

  /** The last op of a record is nobody's trigger. */
  lemma TriggerPrecedes(record: seq<Turn>, x: Turn, t: Turn)
    requires Shaped(record) && UniqueIds(record) && |record| > 0 && t == record[|record| - 1]
    requires x in record[..|record| - 1] && x.opId.Outcome?
    ensures x.opId.trigger != t.opId
  {
    var i :| 0 <= i < |record| - 1 && record[i] == x;
    assert OutcomeShape(record, i) && OutcomeShape(record, |record| - 1);
    if !x.opId.trigger.External? {
      var y :| y in record[..i] && y.opId == x.opId.trigger;
      var j :| 0 <= j < i && record[j] == y;
    }
  }

  lemma AdmissionFits(s: World, agents: set<string>, d: nat, eng: Engine, c: Call)
    requires Inv(s) && EngineOk(s, eng) && EngineFits(s, agents, d, eng)
    requires eng.phase.Admitting? && c.Clock? && PastAdmission(AfterClock(eng.cfg, eng.wake, eng.phase.seen, c.now))
    ensures TriggerFits(s.record, d, eng.cfg, eng.wake)
  {
    var seen, w := eng.phase.seen, eng.wake;
    forall x | x in s.record && x.opId == w.opId ensures x.author != eng.cfg.persona && Hops(s.record, x) + 1 <= d {
      var i :| 0 <= i < |s.record| && s.record[i] == x;
      assert OutcomeShape(s.record, i);
      var a := Anchor(seen, w.opId).value;
      SameIdSameTurn(s.record, a, x);
      assert s.record == seen + s.record[|seen|..];
      HopsSettle(seen, s.record[|seen|..], x);
      var y :| y in s.record && y.opId == w.opId && y.author == w.author;
      SameIdSameTurn(s.record, x, y);
    }
  }

  lemma ActFits(window: int, s: World, agents: set<string>, d: nat, e: nat, c: Call, stored: bool, text: string)
    requires Inv(s) && ReadsPast(s) && Fits(s, agents, d) && Enabled(window, s, Act(e, c, stored, text))
    ensures Fits(Apply(window, s, Act(e, c, stored, text)), agents, d)
  {
    var eng := s.engines[e];
    var s' := Apply(window, s, Act(e, c, stored, text));
    var mid := s.(record := s'.record);
    StepKeeps(window, s, Act(e, c, stored, text));
    assert EngineOk(s, eng) && EngineFits(s, agents, d, eng);
    if stored {
      var t := Turn(c.opId, eng.cfg.persona, TURN_POST, text, s.clock);
      StoredPostIsNew(s, eng, c.opId, window);
      ShapeAppend(s.record, t);
      AppendKeeps(s, mid, t);
      StoredFits(s, agents, d, eng, t);
      AppendFits(s, mid, agents, d, t);
    }
    NextSnapshotIsClear(s, eng, c, stored, window);
    if eng.phase.Admitting? && PastAdmission(s'.engines[e].phase) {
      AdmissionFits(s, agents, d, eng, c);
    }
    forall f | f in s'.engines ensures EngineFits(s', agents, d, s'.engines[f]) {
      if f != e { assert EngineFits(mid, agents, d, s.engines[f]); }
    }
    forall t | t in s'.record ensures OutcomeFits(s'.record, agents, d, t) {
      assert OutcomeFits(mid.record, agents, d, t);
    }
  }

  /** The turn an instance publishes fits: its trigger did. */
  lemma StoredFits(s: World, agents: set<string>, d: nat, eng: Engine, t: Turn)
    requires Inv(s) && EngineOk(s, eng) && EngineFits(s, agents, d, eng) && eng.phase.Posting?
    requires t.opId == OutcomeId(eng.cfg, eng.wake) && IsOwn(t, eng.cfg.persona) && t.opId !in Ids(s.record)
    requires Shaped(s.record + [t])
    ensures OutcomeFits(s.record + [t], agents, d, t)
  {
    var record := s.record + [t];
    assert UniqueIds(record) by {
      forall x | x in s.record ensures x.opId != t.opId {}
    }
    if x :| x in record && x.opId == eng.wake.opId {
      NotItsOwnTrigger(x.opId, eng.cfg.persona);
      assert x in s.record;
      OutcomeHops(record, t, x);
      HopsSettle(s.record, [t], x);
      forall y | y in record && y.opId == t.opId.trigger ensures y.author != t.opId.persona {
        SameIdSameTurn(record, x, y);
      }
    } else {
      ParentsAre(record, t);
      Inhabited(Parents(record, t));
    }
  }

  lemma StepFits(window: int, s: World, agents: set<string>, d: nat, a: Action)
    requires Inv(s) && ReadsPast(s) && Fits(s, agents, d) && Enabled(window, s, a)
    requires "" !in agents && (a.Deliver? ==> BoundedConfig(agents, d, a.cfg))
    ensures Fits(Apply(window, s, a), agents, d)
  {
    var s' := Apply(window, s, a);
    StepKeeps(window, s, a);
    match a
    case Tick(_) =>
      forall e | e in s'.engines ensures EngineFits(s', agents, d, s'.engines[e]) {
        assert EngineFits(s, agents, d, s.engines[e]);
      }
    case Foreign(t) => AppendFits(s, s', agents, d, t);
    case Deliver(e, _, _) =>
      forall f | f in s'.engines ensures EngineFits(s', agents, d, s'.engines[f]) {
        if f != e { assert EngineFits(s, agents, d, s.engines[f]); }
      }
    case Act(e, c, stored, text) => ActFits(window, s, agents, d, e, c, stored, text);
    case Crash(_) =>
      forall e | e in s'.engines ensures EngineFits(s', agents, d, s'.engines[e]) {
        assert EngineFits(s, agents, d, s.engines[e]);
      }
  }

  lemma {:induction false} ReachableFits(window: int, acts: seq<Action>, agents: set<string>, d: nat)
    requires Play(window, acts).Some? && BoundedRun(agents, d, acts)
    ensures Fits(Play(window, acts).value, agents, d) && Inv(Play(window, acts).value)
  {
    Reachable(window, acts);
    if acts != [] {
      var init := acts[..|acts| - 1];
      assert acts[|acts| - 1] in acts && forall a | a in init :: a in acts;
      Reachable(window, init);
      ReachableFits(window, init, agents, d);
      StepFits(window, Play(window, init).value, agents, d, acts[|acts| - 1]);
    }
  }

  /*** Counting a cascade ***/

  function Pow(b: nat, k: nat): nat { if k == 0 then 1 else b * Pow(b, k - 1) }

  /** The sum over k = 1..d of a * (a - 1)^(k - 1). */
  function CascadeSize(a: nat, d: nat): nat {
    if d == 0 then 0 else CascadeSize(a, d - 1) + (if a == 0 then 0 else a * Pow(a - 1, d - 1))
  }

  /** The bound in closed form: a((a - 1)^d - 1) / (a - 2) for more than two agents, 2d for
      two, and at most one for a single agent. */
  lemma {:induction false} CascadeSizeIs(a: nat, d: nat)
    ensures a >= 2 ==> (a - 2) * CascadeSize(a, d) == a * (Pow(a - 1, d) - 1)
    ensures a == 2 ==> CascadeSize(a, d) == 2 * d
    ensures a == 1 ==> CascadeSize(a, d) == if d == 0 then 0 else 1
    ensures a == 0 ==> CascadeSize(a, d) == 0
  {
    if d > 0 {
      CascadeSizeIs(a, d - 1);
      if a >= 2 { OneMoreLevel(a, Pow(a - 1, d - 1), CascadeSize(a, d - 1)); }
      if a == 2 { OnePow(d - 1); }
    }
  }

  lemma OneMoreLevel(a: nat, p: nat, c: nat)
    requires a >= 2 && (a - 2) * c == a * (p - 1)
    ensures (a - 2) * (c + a * p) == a * ((a - 1) * p - 1)
  {
    var q := a * p;
    assert (a - 2) * (c + q) == (a - 2) * c + (a - 2) * q;
    assert a * ((a - 1) * p - 1) == (a - 1) * q - a;
  }

  lemma {:induction false} OnePow(k: nat)
    ensures Pow(1, k) == 1
  {
    if k > 0 { OnePow(k - 1); }
  }

  /** The outcome ids an op can directly give rise to: one per agent other than the one that posted it. */
  function Kids(agents: set<string>, t: OpId): set<OpId> {
    set p | p in agents && !(t.Outcome? && t.persona == p) :: Outcome(t, p)
  }

  function AllKids(agents: set<string>, ts: set<OpId>): set<OpId> {
    set t, p | t in ts && p in agents && !(t.Outcome? && t.persona == p) :: Outcome(t, p)
  }

  function Level(agents: set<string>, root: OpId, k: nat): set<OpId> {
    if k == 0 then {root} else AllKids(agents, Level(agents, root, k - 1))
  }

  function UpTo(agents: set<string>, root: OpId, d: nat): set<OpId> {
    if d == 0 then {} else UpTo(agents, root, d - 1) + Level(agents, root, d)
  }

  lemma {:induction false} KidsBound(agents: set<string>, from: set<string>, t: OpId)
    requires from <= agents
    ensures |set p | p in from :: Outcome(t, p)| <= |from|
  {
    if from != {} {
      var p :| p in from;
      KidsBound(agents, from - {p}, t);
      assert (set q | q in from :: Outcome(t, q)) == (set q | q in from - {p} :: Outcome(t, q)) + {Outcome(t, p)};
    }
  }

  lemma KidsCount(agents: set<string>, t: OpId)
    ensures |Kids(agents, t)| <= |agents|
    ensures t.Outcome? && t.persona in agents ==> |Kids(agents, t)| <= |agents| - 1
  {
    var from := if t.Outcome? then agents - {t.persona} else agents;
    KidsBound(agents, from, t);
    assert Kids(agents, t) == set p | p in from :: Outcome(t, p);
  }

  lemma AllKidsSplit(agents: set<string>, ts: set<OpId>, rest: set<OpId>, t: OpId)
    requires ts == rest + {t}
    ensures |AllKids(agents, ts)| <= |AllKids(agents, rest)| + |Kids(agents, t)|
  {
    assert forall u | u in ts :: u in rest || u == t;
    assert AllKids(agents, ts) == AllKids(agents, rest) + Kids(agents, t);
  }

  lemma OneMore(each: nat, n: nat)
    ensures each * (n + 1) == each * n + each
  {}

  lemma {:induction false} AllKidsCount(agents: set<string>, ts: set<OpId>, each: nat)
    requires forall t | t in ts :: |Kids(agents, t)| <= each
    ensures |AllKids(agents, ts)| <= each * |ts|
  {
    if ts == {} {
      assert AllKids(agents, ts) == {};
    } else {
      var t :| t in ts;
      var rest := ts - {t};
      assert |ts| == |rest| + 1;
      AllKidsCount(agents, rest, each);
      AllKidsSplit(agents, ts, rest, t);
      OneMore(each, |rest|);
    }
  }

  lemma LevelShape(agents: set<string>, root: OpId, k: nat)
    requires k >= 1
    ensures forall t | t in Level(agents, root, k) :: t.Outcome? && t.persona in agents
  {}

  lemma {:induction false} LevelCount(agents: set<string>, root: OpId, k: nat)
    requires k >= 1
    ensures |Level(agents, root, k)| <= if agents == {} then 0 else |agents| * Pow(|agents| - 1, k - 1)
  {
    if k == 1 {
      KidsCount(agents, root);
      AllKidsCount(agents, {root}, |agents|);
    } else {
      LevelCount(agents, root, k - 1);
      LevelShape(agents, root, k - 1);
      var below := Level(agents, root, k - 1);
      var each := if agents == {} then 0 else |agents| - 1;
      forall t | t in below ensures |Kids(agents, t)| <= each { KidsCount(agents, t); }
      AllKidsCount(agents, below, each);
      if agents != {} { NextPower(|agents|, |below|, k - 1); }
    }
  }

  lemma Scale(c: nat, x: nat, y: nat)
    requires x <= y
    ensures c * x <= c * y
  {}

  lemma NextPower(a: nat, x: nat, k: nat)
    requires a >= 1 && k >= 1 && x <= a * Pow(a - 1, k - 1)
    ensures (a - 1) * x <= a * Pow(a - 1, k)
  {
    var p := Pow(a - 1, k - 1);
    Scale(a - 1, x, a * p);
    assert (a - 1) * (a * p) == a * ((a - 1) * p);
  }

  lemma {:induction false} UpToCount(agents: set<string>, root: OpId, d: nat)
    ensures |UpTo(agents, root, d)| <= CascadeSize(|agents|, d)
  {
    if d > 0 {
      UpToCount(agents, root, d - 1);
      LevelCount(agents, root, d);
    }
  }

  lemma {:induction false} LevelIn(agents: set<string>, root: OpId, k: nat, d: nat)
    requires 1 <= k <= d
    ensures Level(agents, root, k) <= UpTo(agents, root, d)
  {
    if k < d { LevelIn(agents, root, k, d - 1); }
  }

  function Root(record: seq<Turn>, t: Turn): Turn {
    Chain(record, t)[|Chain(record, t)| - 1]
  }

  lemma RootStep(record: seq<Turn>, t: Turn) returns (p: Turn)
    requires Parents(record, t) != []
    ensures p == Parents(record, t)[|Parents(record, t)| - 1] && p in record && t.opId == Outcome(p.opId, t.author)
    ensures Root(record, t) == Root(record, p) && Hops(record, t) == Hops(record, p) + 1
  {
    p := LastParent(record, t);
    RootOfCons(t, Chain(record, p));
  }

  lemma RootOfCons(t: Turn, c: seq<Turn>)
    requires |c| >= 1
    ensures ([t] + c)[|[t] + c| - 1] == c[|c| - 1]
  {}

  lemma LevelStep(agents: set<string>, root: OpId, k: nat, x: OpId, p: string)
    requires x in Level(agents, root, k) && p in agents && !(x.Outcome? && x.persona == p)
    ensures Outcome(x, p) in Level(agents, root, k + 1)
  {}

  /** `t` is one of the kids of `x`. */
  predicate Kid(agents: set<string>, x: Turn, t: Turn) {
    && t.opId == Outcome(x.opId, t.author) && t.author in agents
    && !(x.opId.Outcome? && x.opId.persona == t.author)
  }

  ghost predicate Nested(record: seq<Turn>, agents: set<string>) {
    forall t | t in record && Parents(record, t) != [] :: Kid(agents, Parents(record, t)[|Parents(record, t)| - 1], t)
  }

  lemma FitsMeansKids(s: World, agents: set<string>, d: nat)
    requires Inv(s) && Fits(s, agents, d)
    ensures Nested(s.record, agents)
  {
    forall t | t in s.record && Parents(s.record, t) != []
      ensures Kid(agents, Parents(s.record, t)[|Parents(s.record, t)| - 1], t)
    {
      var x := LastParent(s.record, t);
      if x.opId.Outcome? { OutcomesAreOwn(s.record, x); }
      assert OutcomeFits(s.record, agents, d, t);
    }
  }

  /** Every op of the record sits in the tree of its root, at the level of its hop count. */
  lemma {:induction false} SitsInTree(record: seq<Turn>, agents: set<string>, t: Turn)
    requires Nested(record, agents) && t in record
    ensures t.opId in Level(agents, Root(record, t).opId, Hops(record, t))
    ensures Root(record, t) in record
    decreases t.opId
  {
    if Parents(record, t) != [] {
      var x := RootStep(record, t);
      SitsInTree(record, agents, x);
      LevelStep(agents, Root(record, x).opId, Hops(record, x), x.opId, t.author);
    } else {
      ChainOfRoot(record, t, agents);
    }
  }

  lemma ChainOfRoot(record: seq<Turn>, t: Turn, agents: set<string>)
    requires Parents(record, t) == []
    ensures Root(record, t) == t && t.opId in Level(agents, Root(record, t).opId, Hops(record, t))
  {}

  function Descendants(record: seq<Turn>, root: Turn): set<OpId> {
    set t | t in record && Root(record, t) == root && Hops(record, t) > 0 :: t.opId
  }

  lemma SubsetCount(a: set<OpId>, b: set<OpId>)
    requires a <= b
    ensures |a| <= |b|
  {
    assert b == a + (b - a);
  }

  lemma DescendantsFit(s: World, agents: set<string>, d: nat, root: Turn)
    requires Inv(s) && Fits(s, agents, d)
    ensures Descendants(s.record, root) <= UpTo(agents, root.opId, d)
  {
    FitsMeansKids(s, agents, d);
    forall t | t in s.record && Root(s.record, t) == root && Hops(s.record, t) > 0
      ensures t.opId in UpTo(agents, root.opId, d)
    {
      var p := LastParent(s.record, t);
      assert OutcomeFits(s.record, agents, d, t);
      SitsInTree(s.record, agents, t);
      LevelIn(agents, root.opId, Hops(s.record, t), d);
    }
  }

  /** The cascade bound of one root, in every run. */
  lemma CascadeIsBounded(window: int, acts: seq<Action>, agents: set<string>, d: nat, root: Turn)
    requires Play(window, acts).Some? && BoundedRun(agents, d, acts)
    ensures forall t | t in Play(window, acts).value.record :: Hops(Play(window, acts).value.record, t) <= d
    ensures |Descendants(Play(window, acts).value.record, root)| <= CascadeSize(|agents|, d)
  {
    var s := Play(window, acts).value;
    ReachableFits(window, acts, agents, d);
    forall t | t in s.record ensures Hops(s.record, t) <= d {
      assert OutcomeFits(s.record, agents, d, t);
      if Parents(s.record, t) != [] { var p := LastParent(s.record, t); }
    }
    DescendantsFit(s, agents, d, root);
    SubsetCount(Descendants(s.record, root), UpTo(agents, root.opId, d));
    UpToCount(agents, root.opId, d);
  }

  function Roots(record: seq<Turn>): set<OpId> {
    set t | t in record && Hops(record, t) == 0 :: t.opId
  }

  function Cascaded(record: seq<Turn>): set<OpId> {
    set t | t in record && Hops(record, t) > 0 :: t.opId
  }

  function Forest(agents: set<string>, roots: set<OpId>, d: nat): set<OpId> {
    set r, t | r in roots && t in UpTo(agents, r, d) :: t
  }

  lemma ForestSplit(agents: set<string>, roots: set<OpId>, d: nat, r: OpId)
    requires r in roots
    ensures |Forest(agents, roots, d)| <= |Forest(agents, roots - {r}, d)| + |UpTo(agents, r, d)|
  {
    assert forall u | u in roots :: u in roots - {r} || u == r;
    assert Forest(agents, roots, d) == Forest(agents, roots - {r}, d) + UpTo(agents, r, d);
  }

  lemma {:induction false} ForestCount(agents: set<string>, roots: set<OpId>, d: nat)
    ensures |Forest(agents, roots, d)| <= CascadeSize(|agents|, d) * |roots|
  {
    if roots == {} {
      assert Forest(agents, roots, d) == {};
    } else {
      var r :| r in roots;
      ForestCount(agents, roots - {r}, d);
      UpToCount(agents, r, d);
      ForestSplit(agents, roots, d, r);
      OneMore(CascadeSize(|agents|, d), |roots - {r}|);
    }
  }

  /** The bound over the whole record: cascades are finite, and their total size is linear in what people
      and harnesses posted outside the wake protocol. */
  lemma RecordIsBounded(window: int, acts: seq<Action>, agents: set<string>, d: nat)
    requires Play(window, acts).Some? && BoundedRun(agents, d, acts)
    ensures |Cascaded(Play(window, acts).value.record)|
            <= CascadeSize(|agents|, d) * |Roots(Play(window, acts).value.record)|
  {
    var s := Play(window, acts).value;
    ReachableFits(window, acts, agents, d);
    FitsMeansKids(s, agents, d);
    forall t | t in s.record && Hops(s.record, t) > 0 ensures t.opId in Forest(agents, Roots(s.record), d) {
      SitsInTree(s.record, agents, t);
      RootHasNoParent(s.record, t);
      DescendantsFit(s, agents, d, Root(s.record, t));
      assert t.opId in Descendants(s.record, Root(s.record, t));
    }
    SubsetCount(Cascaded(s.record), Forest(agents, Roots(s.record), d));
    ForestCount(agents, Roots(s.record), d);
  }

  lemma {:induction false} RootHasNoParent(record: seq<Turn>, t: Turn)
    ensures Hops(record, Root(record, t)) == 0
    decreases t.opId
  {
    if Parents(record, t) != [] {
      var p := RootStep(record, t);
      RootHasNoParent(record, p);
    }
  }
}
