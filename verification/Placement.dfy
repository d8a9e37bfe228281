/**
 The two claim paths over one placement topic (fleet/fleet.go, dispatcher/dispatcher.go). Other nodes
 may write the topic between any two calls, and any call may fail, unless the topic is said to be quiet
 or reliable.
*/
module Placement {
  import opened Wrappers
  import opened WorkItem

  /** `after` is `before` and one more op. */
  predicate Appended(before: seq<WorkOp>, after: seq<WorkOp>, item: string, kind: OpKind, actor: string) {
    && |after| == |before| + 1 && before <= after
    && after[|before|].item == item && after[|before|].kind == kind && after[|before|].actor == actor
  }

  /** `after` is `before`, a claim and an abandon of the item. */
  predicate HandedStraightBack(before: seq<WorkOp>, after: seq<WorkOp>, item: string, node: string) {
    && |after| == |before| + 2 && before <= after
    && Appended(before, after[..|before| + 1], item, ClaimOp, node)
    && Appended(after[..|before| + 1], after, item, AbandonOp, node)
  }

  lemma FoldAppended(before: seq<WorkOp>, after: seq<WorkOp>, item: string, kind: OpKind, actor: string, x: string)
    requires Appended(before, after, item, kind, actor) && !kind.OpenOp?
    ensures StatusOf(after, x) ==
            if x == item then StepStatus(StatusOf(before, x), after[|before|]) else StatusOf(before, x)
    ensures DeclOf(after, x) == DeclOf(before, x)
  {
    PrefixFold(before, after, x, |before|);
  }

  /** What a node does to the world: an op it publishes, a workload it launches or stops, an engine it sets up,
      and whether that succeeded. */
  datatype Act =
    | Sent(item: string, kind: OpKind, actor: string, ok: bool)
    | Launch(item: string, ok: bool)
    | Stop(item: string, ok: bool)
    | SetUp(item: string, persona: string, ok: bool)

  /** `after` is `before`, the acts of `first`, and an abandon of the item, published or not. */
  predicate ThenAbandoned(before: seq<Act>, after: seq<Act>, first: seq<Act>, item: string, actor: string) {
    after == before + first + [Sent(item, AbandonOp, actor, true)]
    || after == before + first + [Sent(item, AbandonOp, actor, false)]
  }

  /** Where a node works: the placement topic, and the host it runs things on. `acts` is what was done from
      here, in order. */
  class Site {
    var log: seq<WorkOp>
    ghost var acts: seq<Act>
    /** Nobody else writes. */
    const quiet: bool
    /** Reads and publishes succeed. */
    const reliable: bool

    constructor (quiet: bool, reliable: bool)
      ensures this.quiet == quiet && this.reliable == reliable && log == [] && acts == []
    {
      this.quiet, this.reliable, log, acts := quiet, reliable, [], [];
    }

    method Interfere()
      modifies this`log
      ensures old(log) <= log && (quiet ==> log == old(log))
    {
      if !quiet {
        var others: seq<WorkOp> := *;
        log := log + others;
      }
    }

    method Materialise() returns (view: Option<seq<WorkOp>>)
      modifies this`log
      ensures old(log) <= log && (quiet ==> log == old(log))
      ensures view.Some? ==> view.value == log
      ensures reliable ==> view.Some?
    {
      Interfere();
      var ok: bool := *;
      view := if ok || reliable then Some(log) else None;
    }

    /** Publishing: an acknowledged op is on the log; one that failed may be there too. */
    method Publish(item: string, kind: OpKind, actor: string) returns (ok: bool, ghost stored: bool)
      modifies this
      ensures acts == old(acts) + [Sent(item, kind, actor, ok)]
      ensures ok ==> stored
      ensures reliable ==> ok
      ensures old(log) <= log
      ensures !stored && quiet ==> log == old(log)
      ensures stored ==> |log| > |old(log)|
      ensures stored ==> var last := log[|log| - 1]; last.item == item && last.kind == kind && last.actor == actor
      ensures stored && quiet ==> Appended(old(log), log, item, kind, actor)
    {
      Interfere();
      var keep: bool := *;
      var acked: bool := *;
      ok := reliable || (keep && acked);
      stored := ok || keep;
      if ok || keep {
        var at: int := *;
        log := log + [WorkOp(item, kind, actor, at)];
      }
      acts := acts + [Sent(item, kind, actor, ok)];
    }

    method Launch(item: string) returns (ok: bool)
      modifies this`acts
      ensures acts == old(acts) + [Act.Launch(item, ok)]
    {
      ok := *;
      acts := acts + [Act.Launch(item, ok)];
    }

    method Stop(item: string) returns (ok: bool)
      modifies this`acts
      ensures acts == old(acts) + [Act.Stop(item, ok)]
    {
      ok := *;
      acts := acts + [Act.Stop(item, ok)];
    }

    /** Connecting as the persona and building the engine's configuration. */
    method SetUp(item: string, persona: string) returns (ok: bool)
      modifies this`acts
      ensures acts == old(acts) + [Act.SetUp(item, persona, ok)]
    {
      ok := *;
      acts := acts + [Act.SetUp(item, persona, ok)];
    }
  }

  /*** fleet.Node ***/

  /** How a sweep ended: through its list, at an abandon that did not publish, or without a view. */
  datatype SweepEnd = Completed | StoppedAt(item: string) | Unread

  datatype PlaceResult = Placed | NotWon | NotAPlacement | Broken

  class Node {
    const id: string
    var owned: set<string>

    constructor (id: string)
      ensures this.id == id && owned == {}
    {
      this.id, owned := id, {};
    }

    /** The probe handler: alive for exactly what this node runs. */
    method Probe(item: string) returns (alive: bool)
      ensures alive <==> item in owned
    {
      alive := item in owned;
    }

    /** TryPlace: claims an open placement, reads the log back at `pos`, and launches exactly when that names
        this node. It holds the placement exactly when the launch succeeded; a failed one is abandoned. On a
        quiet, reliable topic an open placement is launched, and it stays claimed or is open again. */
    method TryPlace(site: Site, item: string) returns (r: PlaceResult, ghost pos: nat)
      modifies this`owned, site
      ensures old(site.log) <= site.log
      ensures r.Placed? <==> site.acts == old(site.acts) + [Sent(item, ClaimOp, id, true), Act.Launch(item, true)]
      ensures owned == if r.Placed? then old(owned) + {item} else old(owned)
      ensures !r.Placed? ==>
                || site.acts == old(site.acts)
                || site.acts == old(site.acts) + [Sent(item, ClaimOp, id, false)]
                || site.acts == old(site.acts) + [Sent(item, ClaimOp, id, true)]
                || ThenAbandoned(old(site.acts), site.acts,
                                 [Sent(item, ClaimOp, id, true), Act.Launch(item, false)], item, id)
      ensures pos > 0 ==> |old(site.log)| < pos <= |site.log|
                          && (StatusAt(site.log, item, pos) == Claimed(id) <==> |site.acts| >= |old(site.acts)| + 2)
      ensures pos == 0 ==> |site.acts| <= |old(site.acts)| + 1
      ensures site.reliable && site.acts != old(site.acts) ==> pos > 0
      ensures site.quiet && r.Placed? ==> Appended(old(site.log), site.log, item, ClaimOp, id)
      ensures site.quiet && !r.Placed? ==>
                || site.log == old(site.log)
                || Appended(old(site.log), site.log, item, ClaimOp, id)
                || HandedStraightBack(old(site.log), site.log, item, id)
      ensures site.quiet && site.reliable && StatusOf(old(site.log), item).Open?
                && DeclOf(old(site.log), item).Some? ==>
                && |site.acts| >= |old(site.acts)| + 2
                && (if r.Placed? then StatusOf(site.log, item) == Claimed(id)
                    else HandedStraightBack(old(site.log), site.log, item, id) && StatusOf(site.log, item).Open?)
      ensures site.quiet && (!StatusOf(old(site.log), item).Open? || DeclOf(old(site.log), item).None?) ==>
                !r.Placed? && site.log == old(site.log) && site.acts == old(site.acts)
    {
      pos := 0;
      var view := site.Materialise();
      if view.None? { return Broken, 0; }
      if StatusOf(view.value, item).Absent? { return Broken, 0; }
      if DeclOf(view.value, item).None? { return NotAPlacement, 0; }
      if !StatusOf(view.value, item).Open? { return NotWon, 0; }
      ghost var was := site.log;
      var ok, stored := site.Publish(item, ClaimOp, id);
      if !ok { return Broken, 0; }
      if site.quiet { FoldAppended(was, site.log, item, ClaimOp, id, item); }
      var back := site.Materialise();
      if back.None? { return Broken, 0; }
      pos := |site.log|;
      if StatusOf(back.value, item) != Claimed(id) { return NotWon, pos; }
      var launched := site.Launch(item);
      if !launched {
        ghost var claimed := site.log;
        var abandoned, gone := site.Publish(item, AbandonOp, id);
        PrefixFold(claimed, site.log, item, pos);
        if site.quiet && gone { FoldAppended(claimed, site.log, item, AbandonOp, id, item); }
        return Broken, pos;
      }
      owned := owned + {item};
      return Placed, pos;
    }

    /** Release: the node stops answering for the item first; done is published exactly when the workload
        stopped. */
    method Release(site: Site, item: string) returns (ok: bool)
      modifies this`owned, site
      ensures owned == old(owned) - {item}
      ensures old(site.log) <= site.log
      ensures || (site.acts == old(site.acts) + [Act.Stop(item, false)] && !ok)
              || site.acts == old(site.acts) + [Act.Stop(item, true), Sent(item, DoneOp, id, ok)]
      ensures site.quiet && ok ==> Appended(old(site.log), site.log, item, DoneOp, id)
      ensures site.quiet && ok && StatusOf(old(site.log), item).Claimed? ==> StatusOf(site.log, item).Closed?
      ensures site.quiet && site.reliable && !ok ==> site.log == old(site.log)
    {
      owned := owned - {item};
      var stopped := site.Stop(item);
      if !stopped { return false; }
      ghost var was := site.log;
      var done, stored := site.Publish(item, DoneOp, id);
      if site.quiet && stored { FoldAppended(was, site.log, item, DoneOp, id, item); }
      return done;
    }

    /** The sweep's test of one item: the projection nominates it, and its owner does not answer the probe. */
    method IsSilent(view: seq<WorkOp>, item: string, bound: int, w: Conditions) returns (silent: bool)
      ensures silent <==> Silent(view, id, bound, w, item)
    {
      var st := StatusOf(view, item);
      if !st.Claimed? || st.owner == id { return false; }
      if DeclOf(view, item).None? { return false; }
      var claimedAt := LastClaimAt(Timeline(view, item, |view|));
      if claimedAt.None? || w.now(item) - claimedAt.value < bound { return false; }
      return !w.alive(st.owner, item);
    }

    /** Sweep: probes the owners the view nominates, in view order, and abandons for each silent one; the
        first abandon that does not publish ends it. On a quiet, reliable topic exactly the silent items
        reopen, and nothing else changes. */
    method Sweep(site: Site, bound: int, w: Conditions)
        returns (reopened: seq<string>, end: SweepEnd, ghost view: seq<WorkOp>)
      modifies site
      ensures old(site.log) <= site.log
      ensures site.acts == old(site.acts) + Abandons(reopened, id)
                           + (if end.StoppedAt? then [Sent(end.item, AbandonOp, id, false)] else [])
      ensures end.Unread? ==> reopened == [] && !site.reliable
      ensures !end.Unread? ==> old(site.log) <= view <= site.log
      ensures !end.Unread? ==>
                var all := Plan(view, id, bound, w, Opened(view, |view|), |Opened(view, |view|)|);
                if end.Completed? then reopened == all else reopened + [end.item] <= all && !site.reliable
      ensures site.quiet && site.reliable ==>
                && (forall x :: x in reopened <==>
                      x in Opened(old(site.log), |old(site.log)|) && Silent(old(site.log), id, bound, w, x))
                && (forall x :: StatusOf(site.log, x) == if x in reopened then Open else StatusOf(old(site.log), x))
                && (forall x :: DeclOf(site.log, x) == DeclOf(old(site.log), x))
                && |site.log| == |old(site.log)| + |reopened|
    {
      reopened := [];
      view := [];
      var m := site.Materialise();
      if m.None? { return [], Unread, []; }
      view := m.value;
      var items := Opened(m.value, |m.value|);
      OpenedOnce(view, |view|);
      for i := 0 to |items|
        invariant reopened == Plan(view, id, bound, w, items, i)
        invariant site.acts == old(site.acts) + Abandons(reopened, id)
        invariant old(site.log) <= view <= site.log
        invariant site.quiet && site.reliable ==> view == old(site.log) && SweptTo(view, site.log, reopened)
      {
        var item := items[i];
        PlanIsTheSilent(view, id, bound, w, items, i);
        PlanPrefix(view, id, bound, w, items, i + 1, |items|);
        var silent := IsSilent(m.value, item, bound, w);
        if !silent { continue; }
        ghost var was := site.log;
        var ok, stored := site.Publish(item, AbandonOp, id);
        if !ok { return reopened, StoppedAt(item), view; }
        if site.quiet && site.reliable {
          assert items[i] !in items[..i];
          SweptStep(view, was, site.log, reopened, item, id);
        }
        AbandonsGrow(reopened, item, id);
        reopened := reopened + [item];
      }
      PlanIsTheSilent(view, id, bound, w, items, |items|);
      assert items[..|items|] == items;
      return reopened, Completed, view;
    }
  }

  function Abandons(items: seq<string>, actor: string): seq<Act> {
    seq(|items|, i requires 0 <= i < |items| => Sent(items[i], AbandonOp, actor, true))
  }

  lemma AbandonsGrow(items: seq<string>, item: string, actor: string)
    ensures Abandons(items + [item], actor) == Abandons(items, actor) + [Sent(item, AbandonOp, actor, true)]
  {}

  /** The log after the items of `reopened` were abandoned, one op each. */
  ghost predicate SweptTo(was: seq<WorkOp>, log: seq<WorkOp>, reopened: seq<string>) {
    && |log| == |was| + |reopened|
    && (forall x :: StatusOf(log, x) == if x in reopened then Open else StatusOf(was, x))
    && (forall x :: DeclOf(log, x) == DeclOf(was, x))
  }

  lemma SweptStep(was: seq<WorkOp>, before: seq<WorkOp>, after: seq<WorkOp>, reopened: seq<string>,
                  item: string, node: string)
    requires SweptTo(was, before, reopened) && Appended(before, after, item, AbandonOp, node)
    requires item !in reopened && StatusOf(was, item).Claimed?
    ensures SweptTo(was, after, reopened + [item])
  {
    forall x ensures DeclOf(after, x) == DeclOf(was, x)
      && StatusOf(after, x) == if x in reopened + [item] then Open else StatusOf(was, x)
    {
      FoldAppended(before, after, item, AbandonOp, node, x);
    }
  }

  /*** The dispatcher's local state ***/

  datatype Serve = Serve(id: nat, persona: string)

  /** What the mutex guards. */
  datatype Local = Local(taking: bool, served: map<string, Serve>, backoff: map<string, int>)

  predicate Busy(l: Local, persona: string) {
    exists i :: i in l.served && l.served[i].persona == persona
  }

  predicate BackedOff(l: Local, item: string, now: int) { item in l.backoff && now < l.backoff[item] }

  /** Self-selection: the placement is served here, failed here recently, or its persona is busy here. */
  predicate Skips(l: Local, item: string, persona: string, now: int) {
    item in l.served || BackedOff(l, item, now) || Busy(l, persona)
  }

  predicate Free(l: Local, item: string, persona: string, now: int) { l.taking && !Skips(l, item, persona, now) }

  predicate CanTake(l: Local, item: string) { l.taking && item !in l.served }

  function Taken(l: Local, item: string, s: Serve): Local { l.(served := l.served[item := s]) }

  function Released(l: Local, item: string, until: int): Local {
    l.(served := l.served - {item}, backoff := l.backoff[item := until])
  }

  function BackOffUntil(l: Local, item: string, until: int): Local { l.(backoff := l.backoff[item := until]) }

  function Stopped(l: Local): Local { l.(taking := false, served := map[]) }

  predicate Servable(d: Decl) { d.agent && d.wakes > 0 }

  /** A view of the log no older than its first `from` ops named this node owner of the item. */
  ghost predicate NamedSince(log: seq<WorkOp>, item: string, node: string, from: nat) {
    exists pos: nat :: from <= pos && Justified(log, Start(node, item, pos))
  }

  lemma NamedGrows(log: seq<WorkOp>, log': seq<WorkOp>, item: string, node: string, from: nat, earlier: nat)
    requires NamedSince(log, item, node, from) && log <= log' && earlier <= from
    ensures NamedSince(log', item, node, earlier)
  {
    var pos: nat :| from <= pos && Justified(log, Start(node, item, pos));
    PrefixFold(log, log', item, pos);
    assert Justified(log', Start(node, item, pos));
  }

  /** Nothing left for a scan to do about an item. */
  ghost predicate Rests(log: seq<WorkOp>, l: Local, node: string, item: string, now: int) {
    DeclOf(log, item).Some? && Servable(DeclOf(log, item).value)
    && (StatusOf(log, item).Open? || StatusOf(log, item) == Claimed(node)) ==>
      Skips(l, item, DeclOf(log, item).value.persona, now)
  }

  ghost predicate AllRest(log: seq<WorkOp>, l: Local, node: string, now: int) {
    forall item :: Rests(log, l, node, item, now)
  }

  lemma {:induction false} PlacementsAreOpened(log: seq<WorkOp>, item: string, n: nat)
    requires n <= |log| && DeclAt(log, item, n).Some?
    ensures item in Opened(log, n)
  {
    if !(log[n - 1].kind.OpenOp? && LiveAt(log, item, n - 1)) { PlacementsAreOpened(log, item, n - 1); }
  }

  lemma {:induction false} OpenedOnce(log: seq<WorkOp>, n: nat)
    requires n <= |log|
    ensures forall i, j | 0 <= i < j < |Opened(log, n)| :: Opened(log, n)[i] != Opened(log, n)[j]
    ensures forall x | x in Opened(log, n) :: !StatusAt(log, x, n).Absent?
  {
    if n > 0 {
      OpenedOnce(log, n - 1);
      forall x | x in Opened(log, n) ensures !StatusAt(log, x, n).Absent? {}
    }
  }

  /** No backoff runs out between the two times. */
  ghost predicate NoneExpires(l: Local, now: int, later: int) {
    forall item | item in l.backoff :: now < l.backoff[item] ==> later < l.backoff[item]
  }

  lemma RestsLater(log: seq<WorkOp>, l: Local, node: string, now: int, later: int)
    requires AllRest(log, l, node, now) && NoneExpires(l, now, later)
    ensures AllRest(log, l, node, later)
  {
    forall item ensures Rests(log, l, node, item, later) { assert Rests(log, l, node, item, now); }
  }

  /** What a dispatcher may serve, by a view: an agent with at least one wake, open or its own. */
  ghost predicate Eligible(view: seq<WorkOp>, node: string, item: string) {
    && DeclOf(view, item).Some? && DeclOf(view, item).value.agent && DeclOf(view, item).value.wakes >= 1
    && (StatusOf(view, item) == Open || StatusOf(view, item) == Claimed(node))
  }

  /** All a dispatcher does about an item: claims and abandons of its own, and setups. */
  predicate DispatcherAct(a: Act, node: string) {
    match a
    case Sent(_, kind, actor, _) => actor == node && (kind.ClaimOp? || kind.AbandonOp?)
    case SetUp(_, _, _) => true
    case _ => false
  }

  /** What was done in between was done by a dispatcher, about one item. */
  ghost predicate OnlyAbout(before: seq<Act>, after: seq<Act>, node: string, item: string) {
    before <= after
    && forall k | |before| <= k < |after| :: after[k].item == item && DispatcherAct(after[k], node)
  }

  ghost predicate Did(before: seq<Act>, after: seq<Act>, a: Act) {
    exists k :: |before| <= k < |after| && after[k] == a
  }

  /** An item that was a dispatcher's to serve is served now, unless its slot was not free: it was backed off, or
      its persona is busy with another item; or the setup failed, and it was handed back. */
  ghost predicate Attended(was: Local, l: Local, before: seq<Act>, after: seq<Act>, node: string,
                           item: string, persona: string, now: int) {
    || item in l.served
    || (item in was.backoff && now < was.backoff[item])
    || (exists y :: y in l.served && y != item && l.served[y].persona == persona)
    || (Did(before, after, Act.SetUp(item, persona, false)) && Did(before, after, Sent(item, AbandonOp, node, true)))
  }

  /** Everything done was about items the view makes this node's business. */
  ghost predicate OnlyEligible(before: seq<Act>, after: seq<Act>, node: string, view: Option<seq<WorkOp>>) {
    before <= after
    && forall k | |before| <= k < |after| ::
         DispatcherAct(after[k], node) && view.Some? && Eligible(view.value, node, after[k].item)
  }

  /** What is newly served is such an item, under its declared persona, after a setup that succeeded. */
  ghost predicate StartedEligible(was: Local, l: Local, before: seq<Act>, after: seq<Act>, node: string,
                                  view: seq<WorkOp>) {
    forall x | x in l.served && x !in was.served ::
      && Eligible(view, node, x) && l.served[x].persona == DeclOf(view, x).value.persona
      && Did(before, after, Act.SetUp(x, l.served[x].persona, true))
  }

  ghost predicate AllAttended(was: Local, l: Local, before: seq<Act>, after: seq<Act>, node: string,
                              view: seq<WorkOp>, now: int) {
    forall x | Eligible(view, node, x) ::
      Attended(was, l, before, after, node, x, DeclOf(view, x).value.persona, now)
  }

  predicate SameBackoff(was: Local, l: Local, x: string) {
    (x in l.backoff <==> x in was.backoff) && (x in l.backoff ==> l.backoff[x] == was.backoff[x])
  }

  /** Whatever was started, a view taken since named this node owner of it. */
  ghost predicate AllNamed(was: Local, l: Local, log: seq<WorkOp>, node: string, from: nat) {
    forall x | x in l.served && x !in was.served :: NamedSince(log, x, node, from)
  }

  /** Where nobody interferes and nothing fails: the items not visited are as the view has them, and the visited
      ones leave nothing to do. */
  ghost predicate Settled(view: seq<WorkOp>, log: seq<WorkOp>, l: Local, node: string, done: seq<string>,
                          resting: bool, now: int) {
    && (forall x :: DeclOf(log, x) == DeclOf(view, x) && (x !in done ==> StatusOf(log, x) == StatusOf(view, x)))
    && (resting ==> forall x | x in done :: Rests(log, l, node, x, now))
  }

  /** A scan in the middle of its list. `settled`: nobody interferes and nothing fails. */
  ghost predicate SoFar(was: Local, l: Local, before: seq<Act>, after: seq<Act>, node: string, view: seq<WorkOp>,
                        done: seq<string>, settled: bool, now: int) {
    && OnlyEligible(before, after, node, Some(view))
    && StartedEligible(was, l, before, after, node, view)
    && (forall x | x !in done :: SameBackoff(was, l, x))
    && (settled ==> forall x | x in done && Eligible(view, node, x) ::
          Attended(was, l, before, after, node, x, DeclOf(view, x).value.persona, now))
  }

  datatype StartResult = NotFree | Started | HandedBack

  class Dispatcher {
    const node: string
    const raceBackoff: int
    var taking: bool
    var served: map<string, Serve>
    var backoff: map<string, int>
    var nextId: nat

    constructor (node: string, raceBackoff: int)
      ensures this.node == node && this.raceBackoff == raceBackoff && Abs() == Local(true, map[], map[])
    {
      this.node, this.raceBackoff := node, raceBackoff;
      taking, served, backoff, nextId := true, map[], map[], 0;
    }

    function Abs(): Local reads this { Local(taking, served, backoff) }

    method AcceptingWork() returns (r: bool)
      ensures r <==> taking
    {
      r := taking;
    }

    method AnswerProbe(item: string) returns (alive: bool)
      ensures alive <==> item in served
    {
      alive := item in served;
    }

    method PersonaBusy(persona: string) returns (busy: bool)
      ensures busy <==> exists i :: i in served && served[i].persona == persona
      ensures busy <==> Busy(Abs(), persona)
    {
      var rest := served.Keys;
      while rest != {}
        invariant rest <= served.Keys
        invariant forall i | i in served.Keys - rest :: served[i].persona != persona
        decreases |rest|
      {
        var i :| i in rest;
        if served[i].persona == persona { return true; }
        rest := rest - {i};
      }
      return false;
    }

    method SkipRace(item: string, persona: string, now: int) returns (skip: bool)
      ensures skip <==> item in served || (item in backoff && now < backoff[item])
                        || exists i :: i in served && served[i].persona == persona
      ensures skip <==> Skips(Abs(), item, persona, now)
    {
      if item in served { return true; }
      if item in backoff && now < backoff[item] { return true; }
      skip := PersonaBusy(persona);
    }

    method SlotFree(item: string, persona: string, now: int) returns (free: bool, loud: bool)
      ensures free <==> taking && item !in served && (item in backoff ==> backoff[item] <= now)
                        && forall i | i in served :: served[i].persona != persona
      ensures loud <==> taking && item !in served && (item in backoff ==> backoff[item] <= now)
                        && exists i :: i in served && served[i].persona == persona
      ensures free <==> Free(Abs(), item, persona, now)
    {
      if !taking { return false, false; }
      if item in served { return false, false; }
      if item in backoff && now < backoff[item] { return false, false; }
      var busy := PersonaBusy(persona);
      return !busy, busy;
    }

    method Take(item: string, s: Serve) returns (ok: bool)
      modifies this`served
      ensures ok <==> taking && item !in old(served)
      ensures served == if ok then old(served)[item := s] else old(served)
      ensures Abs() == if ok then Taken(old(Abs()), item, s) else old(Abs())
    {
      if !taking { return false; }
      if item in served { return false; }
      served := served[item := s];
      return true;
    }

    method Release(item: string, now: int)
      modifies this`served, this`backoff
      ensures served == old(served) - {item} && backoff == old(backoff)[item := now + raceBackoff]
      ensures Abs() == Released(old(Abs()), item, now + raceBackoff)
    {
      served := served - {item};
      backoff := backoff[item := now + raceBackoff];
    }

    method BackOff(item: string, now: int)
      modifies this`backoff
      ensures backoff == old(backoff)[item := now + raceBackoff]
      ensures Abs() == BackOffUntil(old(Abs()), item, now + raceBackoff)
    {
      backoff := backoff[item := now + raceBackoff];
    }

    /** The locked section of Drain: what it must now cancel and wait for. */
    method StopTaking() returns (stopping: set<Serve>)
      modifies this`taking, this`served
      ensures !taking && served == map[]
      ensures Abs() == Stopped(old(Abs()))
      ensures stopping == old(served).Values
    {
      taking := false;
      stopping := {};
      var rest := served.Keys;
      while rest != {}
        invariant rest <= old(served).Keys && served == old(served) && taking == false && backoff == old(backoff)
        invariant stopping == set i | i in old(served).Keys - rest :: old(served)[i]
        decreases |rest|
      {
        var i :| i in rest;
        stopping := stopping + {served[i]};
        rest := rest - {i};
      }
      served := map[];
    }

    /** handBack: back off first, then abandon. */
    method HandBack(site: Site, item: string, now: int)
      modifies this`backoff, site
      ensures backoff == old(backoff)[item := now + raceBackoff]
      ensures Abs() == BackOffUntil(old(Abs()), item, now + raceBackoff)
      ensures ThenAbandoned(old(site.acts), site.acts, [], item, node)
      ensures site.reliable ==> site.acts[|site.acts| - 1] == Sent(item, AbandonOp, node, true)
      ensures old(site.log) <= site.log
      ensures site.quiet && site.reliable ==>
                Appended(old(site.log), site.log, item, AbandonOp, node)
    {
      BackOff(item, now);
      var ok, stored := site.Publish(item, AbandonOp, node);
    }

    /** startServe, for a placement a view named this node owner of. It starts the engine exactly when the slot
        is free and the setup succeeded. Serving never writes the log; only a failed setup does, and that
        backs the placement off. */
    method StartServe(site: Site, item: string, decl: Decl, now: int) returns (r: StartResult)
      modifies this`served, this`backoff, this`nextId, site
      ensures r.NotFree? <==> !Free(old(Abs()), item, decl.persona, now)
      ensures r.NotFree? ==> Abs() == old(Abs()) && site.log == old(site.log) && site.acts == old(site.acts)
      ensures r.Started? ==> site.acts == old(site.acts) + [Act.SetUp(item, decl.persona, true)]
      ensures r.HandedBack? ==>
                ThenAbandoned(old(site.acts), site.acts, [Act.SetUp(item, decl.persona, false)], item, node)
      ensures site.reliable && r.HandedBack? ==>
                site.acts[|site.acts| - 1] == Sent(item, AbandonOp, node, true)
      ensures r.Started? ==>
                site.log == old(site.log) && Abs() == Taken(old(Abs()), item, Serve(old(nextId), decl.persona))
      ensures r.HandedBack? ==> Abs() == BackOffUntil(old(Abs()), item, now + raceBackoff)
      ensures old(site.log) <= site.log
      ensures r.HandedBack? && site.quiet && site.reliable ==>
                Appended(old(site.log), site.log, item, AbandonOp, node)
      ensures site.quiet && site.reliable ==>
                forall x :: DeclOf(site.log, x) == DeclOf(old(site.log), x)
                            && (x != item ==> StatusOf(site.log, x) == StatusOf(old(site.log), x))
      ensures OnlyAbout(old(site.acts), site.acts, node, item)
      ensures r.Started? ==> Did(old(site.acts), site.acts, Act.SetUp(item, decl.persona, true))
      ensures taking && site.reliable ==>
                Attended(old(Abs()), Abs(), old(site.acts), site.acts, node, item, decl.persona, now)
    {
      var free, loud := SlotFree(item, decl.persona, now);
      if !free {
        if taking { Occupied(Abs(), item, decl.persona, now); }
        return NotFree;
      }
      var setUp := site.SetUp(item, decl.persona);
      if !setUp {
        ghost var was := site.log;
        HandBack(site, item, now);
        if site.quiet && site.reliable {
          forall x ensures DeclOf(site.log, x) == DeclOf(was, x)
              && (x != item ==> StatusOf(site.log, x) == StatusOf(was, x)) {
            FoldAppended(was, site.log, item, AbandonOp, node, x);
          }
        }
        DidTail(old(site.acts), site.acts);
        assert site.acts[|old(site.acts)|] == Act.SetUp(item, decl.persona, false);
        return HandedBack;
      }
      assert site.acts[|old(site.acts)|] == Act.SetUp(item, decl.persona, true);
      var s := Serve(nextId, decl.persona);
      nextId := nextId + 1;
      var taken := Take(item, s);
      assert taken;
      return Started;
    }

    /** race: claim, read back, serve only as the owner the log names. */
    method Race(site: Site, item: string, decl: Decl, now: int) returns (r: StartResult)
      modifies this`served, this`backoff, this`nextId, site
      ensures old(site.log) <= site.log
      ensures Skips(old(Abs()), item, decl.persona, now) ==>
                r.NotFree? && site.log == old(site.log) && site.acts == old(site.acts)
      ensures r.NotFree? && !Skips(old(Abs()), item, decl.persona, now) ==>
                exists ok :: site.acts == old(site.acts) + [Sent(item, ClaimOp, node, ok)]
      ensures r.Started? ==>
                site.acts == old(site.acts) + [Sent(item, ClaimOp, node, true), Act.SetUp(item, decl.persona, true)]
      ensures r.HandedBack? ==>
                ThenAbandoned(old(site.acts), site.acts,
                              [Sent(item, ClaimOp, node, true), Act.SetUp(item, decl.persona, false)], item, node)
      ensures site.reliable && r.HandedBack? ==>
                site.acts[|site.acts| - 1] == Sent(item, AbandonOp, node, true)
      ensures r.NotFree? ==> Abs() == old(Abs())
      ensures r.Started? ==> Abs() == Taken(old(Abs()), item, Serve(old(nextId), decl.persona))
      ensures r.Started? ==> NamedSince(site.log, item, node, |old(site.log)|)
      ensures r.HandedBack? ==> Abs() == BackOffUntil(old(Abs()), item, now + raceBackoff)
      ensures site.quiet && r.Started? ==> Appended(old(site.log), site.log, item, ClaimOp, node)
      ensures site.quiet && site.reliable && r.HandedBack? ==>
                HandedStraightBack(old(site.log), site.log, item, node)
      ensures site.quiet && site.reliable ==>
                forall x :: DeclOf(site.log, x) == DeclOf(old(site.log), x)
                            && (x != item ==> StatusOf(site.log, x) == StatusOf(old(site.log), x))
      ensures site.quiet && site.reliable && StatusOf(old(site.log), item).Open?
                && Free(old(Abs()), item, decl.persona, now) ==>
                !r.NotFree?
      ensures OnlyAbout(old(site.acts), site.acts, node, item)
      ensures r.Started? ==> Did(old(site.acts), site.acts, Act.SetUp(item, decl.persona, true))
      ensures taking && site.quiet && site.reliable && StatusOf(old(site.log), item).Open? ==>
                Attended(old(Abs()), Abs(), old(site.acts), site.acts, node, item, decl.persona, now)
    {
      var skip := SkipRace(item, decl.persona, now);
      if skip {
        Occupied(Abs(), item, decl.persona, now);
        return NotFree;
      }
      ghost var l0 := site.log;
      var ok, stored := site.Publish(item, ClaimOp, node);
      ghost var l1 := site.log;
      if site.quiet && stored {
        forall x ensures DeclOf(l1, x) == DeclOf(l0, x) && (x != item ==> StatusOf(l1, x) == StatusOf(l0, x)) {
          FoldAppended(l0, l1, item, ClaimOp, node, x);
        }
        FoldAppended(l0, l1, item, ClaimOp, node, item);
      }
      if !ok { return NotFree; }
      var view := site.Materialise();
      if view.None? { return NotFree; }
      if StatusOf(view.value, item) != Claimed(node) { return NotFree; }
      assert Justified(site.log, Start(node, item, |site.log|));
      ghost var claimed := site.acts;
      r := StartServe(site, item, decl, now);
      DidLonger(old(site.acts), claimed, site.acts);
    }

    /** One item of a scan, judged by the scan's single view. */
    method Visit(site: Site, view: seq<WorkOp>, item: string, now: int)
      requires view <= site.log
      modifies this`served, this`backoff, this`nextId, site
      ensures old(site.log) <= site.log && taking == old(taking)
      ensures OnlyAbout(old(site.acts), site.acts, node, item)
      ensures site.acts != old(site.acts) ==> Eligible(view, node, item)
      ensures item in served && item !in old(served) ==>
                && Eligible(view, node, item) && served[item].persona == DeclOf(view, item).value.persona
                && Did(old(site.acts), site.acts, Act.SetUp(item, served[item].persona, true))
      ensures site.quiet && site.reliable && taking && StatusOf(view, item) == StatusOf(old(site.log), item)
              && Eligible(view, node, item) ==>
                Attended(old(Abs()), Abs(), old(site.acts), site.acts, node, item,
                         DeclOf(view, item).value.persona, now)
      ensures forall x | x in served && x !in old(served) :: x == item && NamedSince(site.log, x, node, |view|)
      ensures old(served).Keys <= served.Keys && forall x | x in old(served) :: served[x] == old(served)[x]
      ensures forall x | x != item :: SameBackoff(old(Abs()), Abs(), x)
      ensures site.quiet && site.reliable ==>
                forall x :: DeclOf(site.log, x) == DeclOf(old(site.log), x)
                            && (x != item ==> StatusOf(site.log, x) == StatusOf(old(site.log), x))
      ensures site.quiet && site.reliable && taking && raceBackoff > 0
                && StatusOf(view, item) == StatusOf(old(site.log), item)
              && DeclOf(view, item) == DeclOf(old(site.log), item) ==>
                Rests(site.log, Abs(), node, item, now)
      ensures Rests(view, old(Abs()), node, item, now) ==> Abs() == old(Abs()) && site.log == old(site.log)
      ensures item in backoff && item in old(backoff) && raceBackoff > 0 ==>
                backoff[item] == old(backoff)[item] || backoff[item] > now
      ensures item in old(backoff) ==> item in backoff
    {
      var decl := DeclOf(view, item);
      if decl.None? || !Servable(decl.value) { return; }
      var st := StatusOf(view, item);
      if st == Claimed(node) {
        NamedByView(view, site.log, item);
        var r := StartServe(site, item, decl.value, now);
      } else if st.Open? {
        var r := Race(site, item, decl.value, now);
      }
    }

    lemma NamedByView(view: seq<WorkOp>, log: seq<WorkOp>, item: string)
      requires view <= log && StatusOf(view, item) == Claimed(node)
      ensures NamedSince(log, item, node, |view|)
    {
      PrefixFold(view, log, item, |view|);
      assert Justified(log, Start(node, item, |view|));
    }

    /** scan: one view, every servable placement resumed or raced by it. Whatever others do meanwhile, an
        engine starts only for an item some view named this node owner of. On a quiet and reliable topic
        a scan leaves nothing to do, and a scan with nothing to do does nothing. */
    method Scan(site: Site, now: int) returns (ghost view: Option<seq<WorkOp>>)
      modifies this`served, this`backoff, this`nextId, site
      ensures old(site.log) <= site.log && taking == old(taking)
      ensures view.Some? ==> old(site.log) <= view.value <= site.log
      ensures view.None? ==> Abs() == old(Abs()) && site.acts == old(site.acts) && (taking ==> !site.reliable)
      ensures OnlyEligible(old(site.acts), site.acts, node, view)
      ensures view.Some? ==> StartedEligible(old(Abs()), Abs(), old(site.acts), site.acts, node, view.value)
      ensures site.quiet && site.reliable && taking ==>
                && view == Some(old(site.log))
                && AllAttended(old(Abs()), Abs(), old(site.acts), site.acts, node, old(site.log), now)
      ensures forall x | x in served && x !in old(served) :: NamedSince(site.log, x, node, |old(site.log)|)
      ensures !old(taking) ==> Abs() == old(Abs()) && site.log == old(site.log)
      ensures site.quiet && site.reliable && taking && raceBackoff > 0 ==> AllRest(site.log, Abs(), node, now)
      ensures site.quiet && AllRest(old(site.log), old(Abs()), node, now) ==>
                Abs() == old(Abs()) && site.log == old(site.log)
    {
      view := None;
      var accepting := AcceptingWork();
      if !accepting { return; }
      var m := site.Materialise();
      if m.None? { return; }
      view := m;
      var seen := m.value;
      ghost var before, acts0 := Abs(), site.acts;
      var items := Opened(seen, |seen|);
      OpenedOnce(seen, |seen|);
      for i := 0 to |items|
        invariant seen <= site.log && old(site.log) <= seen && taking == old(taking)
        invariant AllNamed(before, Abs(), site.log, node, |old(site.log)|)
        invariant AllRest(seen, before, node, now) ==> Abs() == before && site.log == seen
        invariant site.quiet && site.reliable ==> Settled(seen, site.log, Abs(), node, items[..i], raceBackoff > 0, now)
        invariant SoFar(before, Abs(), acts0, site.acts, node, seen, items[..i], site.quiet && site.reliable, now)
      {
        ghost var acts1 := site.acts;
        ghost var l0, local0 := site.log, Abs();
        Visit(site, seen, items[i], now);
        assert items[..i + 1] == items[..i] + [items[i]];
        assert items[i] !in items[..i];
        assert AllRest(seen, before, node, now) ==> Rests(seen, before, node, items[i], now);
        NamedStays(before, local0, Abs(), l0, site.log, node, |seen|, |old(site.log)|);
        OneVisited(before, local0, Abs(), acts0, acts1, site.acts, node, seen, items[..i], items[i],
                   site.quiet && site.reliable, now);
        if site.quiet && site.reliable {
          SettledStays(seen, l0, site.log, local0, Abs(), node, items[..i], items[i], raceBackoff > 0, now);
        }
      }
      assert items[..|items|] == items;
      forall x | DeclOf(seen, x).Some? ensures x in items { PlacementsAreOpened(seen, x, |seen|); }
      if site.quiet && site.reliable && raceBackoff > 0 {
        assert forall x | x !in items :: Rests(site.log, Abs(), node, x, now);
      }
    }

    /** Scan is idempotent: `log` and `local` are the state after a first scan; a second, with no backoff
        run out in between, publishes nothing and starts nothing. */
    method Rescan(site: Site, now: int, later: int) returns (ghost log: seq<WorkOp>, ghost local: Local)
      requires taking && raceBackoff > 0 && site.quiet && site.reliable
      modifies this`served, this`backoff, this`nextId, site
      ensures AllRest(log, local, node, now) && old(site.log) <= log
      ensures NoneExpires(local, now, later) ==> site.log == log && Abs() == local
    {
      var first := Scan(site, now);
      log, local := site.log, Abs();
      if NoneExpires(local, now, later) { RestsLater(log, local, node, now, later); }
      var second := Scan(site, later);
    }
  }

  lemma DidTail(before: seq<Act>, after: seq<Act>)
    requires before <= after
    ensures forall k | |before| <= k < |after| :: Did(before, after, after[k])
  {}

  lemma DidLonger(before: seq<Act>, mid: seq<Act>, after: seq<Act>)
    requires before <= mid <= after
    ensures forall a :: Did(mid, after, a) ==> Did(before, after, a)
  {}

  lemma NamedStays(was: Local, l: Local, l': Local, log: seq<WorkOp>, log': seq<WorkOp>, node: string,
                   view: nat, from: nat)
    requires AllNamed(was, l, log, node, from) && log <= log' && from <= view
    requires forall x | x in l'.served && x !in l.served :: NamedSince(log', x, node, view)
    ensures AllNamed(was, l', log', node, from)
  {
    forall x | x in l'.served && x !in was.served ensures NamedSince(log', x, node, from) {
      if x in l.served {
        NamedGrows(log, log', x, node, from, from);
      } else {
        NamedGrows(log', log', x, node, view, from);
      }
    }
  }

  lemma SettledStays(view: seq<WorkOp>, log: seq<WorkOp>, log': seq<WorkOp>, l: Local, l': Local, node: string,
                     done: seq<string>, item: string, resting: bool, now: int)
    requires Settled(view, log, l, node, done, resting, now) && item !in done
    requires forall x :: DeclOf(log', x) == DeclOf(log, x) && (x != item ==> StatusOf(log', x) == StatusOf(log, x))
    requires l.served.Keys <= l'.served.Keys && forall x | x in l.served :: l'.served[x] == l.served[x]
    requires forall x | x != item :: SameBackoff(l, l', x)
    requires resting ==> Rests(log', l', node, item, now)
    ensures Settled(view, log', l', node, done + [item], resting, now)
  {
    forall x | resting && x in done + [item] ensures Rests(log', l', node, x, now) {
      if x != item {
        assert Rests(log, l, node, x, now) && SameBackoff(l, l', x);
        StaysSkipped(l, l', x, item, now);
      }
    }
  }

  lemma EligibleStays(before: seq<Act>, mid: seq<Act>, after: seq<Act>, node: string, view: seq<WorkOp>, item: string)
    requires OnlyEligible(before, mid, node, Some(view)) && OnlyAbout(mid, after, node, item)
    requires after != mid ==> Eligible(view, node, item)
    ensures OnlyEligible(before, after, node, Some(view))
  {}

  lemma StartedStays(was: Local, l: Local, l': Local, before: seq<Act>, mid: seq<Act>, after: seq<Act>, node: string,
                     view: seq<WorkOp>, item: string)
    requires before <= mid <= after && StartedEligible(was, l, before, mid, node, view)
    requires forall x | x in l'.served && x !in l.served :: x == item
    requires l.served.Keys <= l'.served.Keys && forall x | x in l.served :: l'.served[x] == l.served[x]
    requires item in l'.served && item !in l.served ==>
               Eligible(view, node, item) && l'.served[item].persona == DeclOf(view, item).value.persona
               && Did(mid, after, Act.SetUp(item, l'.served[item].persona, true))
    ensures StartedEligible(was, l', before, after, node, view)
  {
    DidLonger(before, mid, after);
    forall x | x in l'.served && x !in was.served
      ensures Did(before, after, Act.SetUp(x, l'.served[x].persona, true))
    {
      if x in l.served { DidMore(before, mid, after, Act.SetUp(x, l.served[x].persona, true)); }
    }
  }

  lemma DidMore(before: seq<Act>, mid: seq<Act>, after: seq<Act>, a: Act)
    requires before <= mid <= after && Did(before, mid, a)
    ensures Did(before, after, a)
  {
    var k :| |before| <= k < |mid| && mid[k] == a;
    assert after[k] == a;
  }

  lemma AttendedStays(was: Local, l: Local, l': Local, before: seq<Act>, mid: seq<Act>, after: seq<Act>, node: string,
                      item: string, persona: string, now: int)
    requires before <= mid <= after && Attended(was, l, before, mid, node, item, persona, now)
    requires l.served.Keys <= l'.served.Keys && forall x | x in l.served :: l'.served[x] == l.served[x]
    ensures Attended(was, l', before, after, node, item, persona, now)
  {
    if Did(before, mid, Act.SetUp(item, persona, false)) && Did(before, mid, Sent(item, AbandonOp, node, true)) {
      DidMore(before, mid, after, Act.SetUp(item, persona, false));
      DidMore(before, mid, after, Sent(item, AbandonOp, node, true));
    } else if y :| y in l.served && y != item && l.served[y].persona == persona {
      assert y in l'.served && l'.served[y].persona == persona;
    }
  }

  lemma AttendedFrom(was: Local, l: Local, l': Local, before: seq<Act>, mid: seq<Act>, after: seq<Act>, node: string,
                     item: string, persona: string, now: int)
    requires before <= mid <= after && Attended(l, l', mid, after, node, item, persona, now)
    requires SameBackoff(was, l, item)
    ensures Attended(was, l', before, after, node, item, persona, now)
  {
    DidLonger(before, mid, after);
  }

  lemma OneVisited(was: Local, l: Local, l': Local, before: seq<Act>, mid: seq<Act>, after: seq<Act>, node: string,
                   view: seq<WorkOp>, done: seq<string>, item: string, settled: bool, now: int)
    requires SoFar(was, l, before, mid, node, view, done, settled, now) && item !in done
    requires OnlyAbout(mid, after, node, item) && (after != mid ==> Eligible(view, node, item))
    requires forall x | x in l'.served && x !in l.served :: x == item
    requires l.served.Keys <= l'.served.Keys && forall x | x in l.served :: l'.served[x] == l.served[x]
    requires item in l'.served && item !in l.served ==>
               Eligible(view, node, item) && l'.served[item].persona == DeclOf(view, item).value.persona
               && Did(mid, after, Act.SetUp(item, l'.served[item].persona, true))
    requires forall x | x != item :: SameBackoff(l, l', x)
    requires settled && Eligible(view, node, item) ==>
               Attended(l, l', mid, after, node, item, DeclOf(view, item).value.persona, now)
    ensures SoFar(was, l', before, after, node, view, done + [item], settled, now)
  {
    EligibleStays(before, mid, after, node, view, item);
    StartedStays(was, l, l', before, mid, after, node, view, item);
    forall x | settled && x in done + [item] && Eligible(view, node, x)
      ensures Attended(was, l', before, after, node, x, DeclOf(view, x).value.persona, now)
    {
      var persona := DeclOf(view, x).value.persona;
      if x != item {
        AttendedStays(was, l, l', before, mid, after, node, x, persona, now);
      } else {
        AttendedFrom(was, l, l', before, mid, after, node, x, persona, now);
      }
    }
    forall x | x !in done + [item] ensures SameBackoff(was, l', x) {
      assert SameBackoff(was, l, x) && SameBackoff(l, l', x);
    }
  }

  /** Why a slot is not free. */
  lemma Occupied(l: Local, item: string, persona: string, now: int)
    requires Skips(l, item, persona, now)
    ensures item in l.served || (item in l.backoff && now < l.backoff[item])
            || exists y :: y in l.served && y != item && l.served[y].persona == persona
  {
    if Busy(l, persona) {
      var y :| y in l.served && l.served[y].persona == persona;
    }
  }

  lemma StaysSkipped(l: Local, l': Local, x: string, y: string, now: int)
    requires x != y && l.served.Keys <= l'.served.Keys && forall i | i in l.served :: l'.served[i] == l.served[i]
    requires (x in l'.backoff <==> x in l.backoff) && (x in l.backoff ==> l'.backoff[x] == l.backoff[x])
    ensures forall persona :: Skips(l, x, persona, now) ==> Skips(l', x, persona, now)
  {
    forall persona | Busy(l, persona) ensures Busy(l', persona) {
      var i :| i in l.served && l.served[i].persona == persona;
      assert i in l'.served && l'.served[i].persona == persona;
    }
  }
}
