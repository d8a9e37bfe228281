/**
 Any number of nodes over one placement topic (dispatcher/dispatcher.go, fleet/fleet.go): every interleaving
 of their scans, claims, read-backs, starts, hand-backs and crashes, and of whatever else is written. A node
 acts on the views it holds, however old.
*/
module Ownership {
  import opened Wrappers
  import opened WorkItem

  /** A node in its loop: without a view, in a scan, between a claim and its read-back, and after it. Views are
      positions of the log. */
  datatype Phase =
    | Idle
    | Scanning(view: nat)
    | Claiming(view: nat, item: string)
    | ReadBack(view: nat, item: string, back: nat)

  datatype World = World(log: seq<WorkOp>, nodes: map<string, Phase>, starts: seq<Start>)

  const Init := World([], map[], [])

  datatype Action =
    | Write(op: WorkOp)                           // submissions, sweeps, releases, and claims of other programs
    | Look(node: string)                          // the scan's materialise
    | Resume(node: string, item: string)          // serve what the scan's view says is ours
    | Claim(node: string, item: string, at: int)  // race for what the scan's view says is open
    | LookBack(node: string)                      // the race's own materialise
    | Win(node: string)                           // serve what the read-back says is ours
    | HandBack(node: string, item: string, at: int)
    | Leave(node: string)                         // a lost race, a scan that is over, a failed call
    | Crash(node: string)

  function PhaseOf(s: World, node: string): Phase { if node in s.nodes then s.nodes[node] else Idle }

  predicate Names(s: World, view: nat, item: string, node: string) {
    view <= |s.log| && StatusAt(s.log, item, view) == Claimed(node)
  }

  predicate Enabled(s: World, a: Action) {
    match a
    case Write(_) => true
    case Look(node) => PhaseOf(s, node).Idle?
    case Resume(node, item) =>
      var ph := PhaseOf(s, node);
      ph.Scanning? && Names(s, ph.view, item, node)
    case Claim(node, item, _) =>
      var ph := PhaseOf(s, node);
      ph.Scanning? && ph.view <= |s.log| && StatusAt(s.log, item, ph.view).Open?
    case LookBack(node) => PhaseOf(s, node).Claiming?
    case Win(node) =>
      var ph := PhaseOf(s, node);
      ph.ReadBack? && Names(s, ph.back, ph.item, node)
    case HandBack(node, item, _) =>
      var ph := PhaseOf(s, node);
      || (ph.Scanning? && Names(s, ph.view, item, node))
      || (ph.ReadBack? && item == ph.item && Names(s, ph.back, item, node))
    case Leave(_) => true
    case Crash(_) => true
  }

  /** Where a race returns to: the scan it is part of. */
  function BackToScan(ph: Phase): Phase {
    match ph
    case Claiming(view, _) => Scanning(view)
    case ReadBack(view, _, _) => Scanning(view)
    case _ => Idle
  }

  function Apply(s: World, a: Action): World
    requires Enabled(s, a)
  {
    match a
    case Write(op) => s.(log := s.log + [op])
    case Look(node) => s.(nodes := s.nodes[node := Scanning(|s.log|)])
    case Resume(node, item) => s.(starts := s.starts + [Start(node, item, PhaseOf(s, node).view)])
    case Claim(node, item, at) =>
      s.(log := s.log + [WorkOp(item, ClaimOp, node, at)],
          nodes := s.nodes[node := Claiming(PhaseOf(s, node).view, item)])
    case LookBack(node) =>
      var ph := PhaseOf(s, node);
      s.(nodes := s.nodes[node := ReadBack(ph.view, ph.item, |s.log|)])
    case Win(node) =>
      var ph := PhaseOf(s, node);
      s.(starts := s.starts + [Start(node, ph.item, ph.back)], nodes := s.nodes[node := BackToScan(ph)])
    case HandBack(node, item, at) =>
      var ph := PhaseOf(s, node);
      s.(log := s.log + [WorkOp(item, AbandonOp, node, at)],
         nodes := s.nodes[node := if ph.ReadBack? then BackToScan(ph) else ph])
    case Leave(node) => s.(nodes := s.nodes[node := BackToScan(PhaseOf(s, node))])
    case Crash(node) => s.(nodes := s.nodes - {node})
  }

  function Play(acts: seq<Action>): Option<World> {
    if acts == [] then Some(Init)
    else
      var s := Play(acts[..|acts| - 1]);
      if s.Some? && Enabled(s.value, acts[|acts| - 1]) then Some(Apply(s.value, acts[|acts| - 1])) else None
  }

  ghost predicate AllJustified(s: World) { forall x | x in s.starts :: Justified(s.log, x) }

  /** Every start is justified: the view it was made from is part of the log and names the node. */
  lemma StepKeeps(s: World, a: Action)
    requires AllJustified(s) && Enabled(s, a)
    ensures AllJustified(Apply(s, a)) && s.log <= Apply(s, a).log && s.starts <= Apply(s, a).starts
  {
    var s' := Apply(s, a);
    forall x | x in s'.starts ensures Justified(s'.log, x) {
      if x in s.starts { PrefixFold(s.log, s'.log, x.item, x.pos); }
    }
  }

  lemma {:induction false} Reachable(acts: seq<Action>)
    requires Play(acts).Some?
    ensures AllJustified(Play(acts).value)
  {
    if acts != [] {
      Reachable(acts[..|acts| - 1]);
      StepKeeps(Play(acts[..|acts| - 1]).value, acts[|acts| - 1]);
    }
  }

  /** In every run of any number of nodes, two different ones never start serving an item, by a won race or by
      resume, without a live abandon between the views they started from. */
  lemma TwoServersNeedAnAbandon(acts: seq<Action>, x: nat, y: nat)
    requires Play(acts).Some?
    requires x < |Play(acts).value.starts| && y < |Play(acts).value.starts|
    requires var one, other := Play(acts).value.starts[x], Play(acts).value.starts[y];
             one.item == other.item && one.node != other.node && one.pos <= other.pos
    ensures var one, other, log := Play(acts).value.starts[x], Play(acts).value.starts[y], Play(acts).value.log;
            exists a :: one.pos <= a < other.pos <= |log| && LiveAt(log, one.item, a) && log[a].kind.AbandonOp?
  {
    Reachable(acts);
    var s := Play(acts).value;
    var one, other := s.starts[x], s.starts[y];
    assert Justified(s.log, one) && Justified(s.log, other);
    var a, c := OwnershipChangesOnTheRecord(s.log, one.item, one.pos, other.pos);
  }

  /** So while nobody abandons an item, whoever starts serving it is one node, whatever races for it. */
  lemma OneServerUntilAbandoned(acts: seq<Action>, item: string)
    requires Play(acts).Some?
    requires forall a | 0 <= a < |Play(acts).value.log| ::
               !(LiveAt(Play(acts).value.log, item, a) && Play(acts).value.log[a].kind.AbandonOp?)
    ensures forall x, y | x in Play(acts).value.starts && y in Play(acts).value.starts && x.item == y.item == item ::
              x.node == y.node
  {
    var s := Play(acts).value;
    forall x, y | x in s.starts && y in s.starts && x.item == y.item == item ensures x.node == y.node {
      var i :| 0 <= i < |s.starts| && s.starts[i] == x;
      var j :| 0 <= j < |s.starts| && s.starts[j] == y;
      if x.node != y.node {
        if x.pos <= y.pos { TwoServersNeedAnAbandon(acts, i, j); } else { TwoServersNeedAnAbandon(acts, j, i); }
      }
    }
  }

  /*** What a hand-back gives up ***/

  /** The view a node may hand an item back by. */
  function ActsOn(ph: Phase): nat {
    match ph
    case Scanning(view) => view
    case ReadBack(_, _, back) => back
    case _ => 0
  }

  /** A hand-back, in any world it is possible in, gives up whatever claim the item has where it lands: the one
      its view showed exactly when nothing live has happened to the item since, and another node's when that
      node has won meanwhile. */
  lemma HandBackGivesUp(s: World, node: string, item: string, at: int)
    requires Enabled(s, HandBack(node, item, at))
    ensures var s', view := Apply(s, HandBack(node, item, at)), ActsOn(PhaseOf(s, node));
            view <= |s.log| && StatusAt(s.log, item, view) == Claimed(node)
            && GivesUp(s.log, s'.log, item, view, node)
  {
    AbandonGivesUp(s.log, item, ActsOn(PhaseOf(s, node)), node, node, at);
  }

  lemma Extend(acts: seq<Action>, s: World, a: Action) returns (acts': seq<Action>, s': World)
    requires Play(acts) == Some(s) && Enabled(s, a)
    ensures acts' == acts + [a] && s' == Apply(s, a) && Play(acts') == Some(s')
  {
    acts', s' := acts + [a], Apply(s, a);
    assert acts'[..|acts|] == acts;
  }

  const ITEM := "w-1"
  const OPENED := WorkOp(ITEM, OpenOp(Some(Decl("clerk", true, 1))), "ada", 0)
  const CLAIMED_BY_A := WorkOp(ITEM, ClaimOp, "node-a", 1)
  const ABANDONED := WorkOp(ITEM, AbandonOp, "node-c", 2)
  const CLAIMED_BY_B := WorkOp(ITEM, ClaimOp, "node-b", 3)

  /** The failing input: node a's view still names it, a peer has since abandoned for it and node b has won,
      and a's hand-back reopens the placement b holds. */
  lemma StaleHandBack() returns (acts: seq<Action>, s: World)
    ensures Play(acts) == Some(s) && Enabled(s, HandBack("node-a", ITEM, 4))
    ensures StatusOf(s.log, ITEM) == Claimed("node-b")
    ensures StatusOf(Apply(s, HandBack("node-a", ITEM, 4)).log, ITEM) == Open
  {
    acts, s := TwoOwners();
    Told(s.log);
    HandBackGivesUp(s, "node-a", ITEM, 4);
  }

  lemma TwoOwners() returns (acts: seq<Action>, s: World)
    ensures Play(acts) == Some(s) && s.log == [OPENED, CLAIMED_BY_A, ABANDONED, CLAIMED_BY_B]
    ensures PhaseOf(s, "node-a") == Scanning(2)
  {
    acts, s := [], Init;
    acts, s := Extend(acts, s, Write(OPENED));
    acts, s := Extend(acts, s, Write(CLAIMED_BY_A));
    acts, s := Extend(acts, s, Look("node-a"));
    acts, s := Extend(acts, s, Write(ABANDONED));
    acts, s := Extend(acts, s, Write(CLAIMED_BY_B));
  }

  lemma Told(log: seq<WorkOp>)
    requires log == [OPENED, CLAIMED_BY_A, ABANDONED, CLAIMED_BY_B]
    ensures StatusAt(log, ITEM, 2) == Claimed("node-a") && StatusAt(log, ITEM, 4) == Claimed("node-b")
  {
    assert StatusAt(log, ITEM, 1) == Open;
    assert StatusAt(log, ITEM, 2) == Claimed("node-a");
    assert StatusAt(log, ITEM, 3) == Open;
  }
}
