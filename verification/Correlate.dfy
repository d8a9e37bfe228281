/**
 Wake identity, outcome correlation, the ancestry walk and the wake budget (wrap/correlate.go).

 Op ids form a free datatype: the source derives outcome ids with UUIDv5 (section 5.5 of RFC 9562),
 idealised here as an injective, acyclic constructor. What the source really hashes is treated in
 module WakeIdentity.
*/
module Correlate {
  import opened Wrappers

  /** Fresh: an id drawn at random by a client. External: a trigger that is never an op of a topic
      (a tick sequence number, a payload digest). Outcome: the id WakeOpID derives. */
  datatype OpId = Fresh(n: nat) | External(key: string) | Outcome(trigger: OpId, persona: string)

  const TURN_POST := "turn.post"

  datatype Turn = Turn(opId: OpId, author: string, kind: string, body: string, timestamp: int)

  datatype Budget = Budget(maxHops: int, windowMax: int, windowPer: int)

  datatype Verdict =
    | Admitted
    | DepthRefused(hops: nat, bound: int)
    | WindowRefused(own: nat, per: int, bound: int)

  function WakeOpID(notifyOpID: OpId, persona: string): OpId { Outcome(notifyOpID, persona) }

  function Ids(view: seq<Turn>): set<OpId> { set t | t in view :: t.opId }

  ghost predicate UniqueIds(view: seq<Turn>) {
    forall i, j | 0 <= i < j < |view| :: view[i].opId != view[j].opId
  }

  lemma SameIdSameTurn(view: seq<Turn>, s: Turn, t: Turn)
    requires UniqueIds(view) && s in view && t in view && s.opId == t.opId
    ensures s == t
  {
    var i :| 0 <= i < |view| && view[i] == s;
    var j :| 0 <= j < |view| && view[j] == t;
    assert i == j;
  }

  predicate IsOwn(t: Turn, persona: string) { t.author == persona && t.kind == TURN_POST }

  predicate NewOwn(t: Turn, before: seq<Turn>, persona: string) {
    IsOwn(t, persona) && t.opId !in Ids(before)
  }

  /** The first turn of `after` the persona posted since `before`. */
  function FirstNewOwn(before: seq<Turn>, after: seq<Turn>, persona: string): (r: Option<OpId>)
    ensures r.None? <==> forall t | t in after :: !NewOwn(t, before, persona)
    ensures r.Some? ==> exists t :: t in after && NewOwn(t, before, persona) && t.opId == r.value
  {
    if after == [] then None
    else
      assert forall t :: t in after <==> t == after[0] || t in after[1..];
      if NewOwn(after[0], before, persona) then Some(after[0].opId)
      else FirstNewOwn(before, after[1..], persona)
  }

  method PostedDuringRun(before: seq<Turn>, after: seq<Turn>, persona: string) returns (r: Option<OpId>)
    ensures r == FirstNewOwn(before, after, persona)
  {
    var seen: set<OpId> := {};
    for i := 0 to |before|
      invariant seen == Ids(before[..i])
    {
      seen := seen + {before[i].opId};
      assert before[..i + 1] == before[..i] + [before[i]];
    }
    assert before[..|before|] == before;
    for i := 0 to |after|
      invariant FirstNewOwn(before, after, persona) == FirstNewOwn(before, after[i..], persona)
    {
      if IsOwn(after[i], persona) && after[i].opId !in seen {
        return Some(after[i].opId);
      }
      assert after[i..][1..] == after[i + 1..];
    }
    return None;
  }

  method ContainsOp(view: seq<Turn>, opId: OpId) returns (found: bool)
    ensures found <==> opId in Ids(view)
  {
    for i := 0 to |view|
      invariant opId !in Ids(view[..i])
    {
      if view[i].opId == opId { return true; }
      assert view[..i + 1] == view[..i] + [view[i]];
    }
    assert view[..|view|] == view;
    return false;
  }

  /** The first turn of the view carrying the id. */
  function Anchor(view: seq<Turn>, opId: OpId): (r: Option<Turn>)
    ensures r.Some? <==> opId in Ids(view)
    ensures r.Some? ==> r.value in view && r.value.opId == opId
  {
    if view == [] then None
    else if view[0].opId == opId then Some(view[0])
    else
      assert forall t :: t in view <==> t == view[0] || t in view[1..];
      Anchor(view[1..], opId)
  }

  method FindAnchor(view: seq<Turn>, opId: OpId) returns (r: Option<Turn>)
    ensures r == Anchor(view, opId)
  {
    for i := 0 to |view|
      invariant Anchor(view, opId) == Anchor(view[i..], opId)
    {
      if view[i].opId == opId { return Some(view[i]); }
      assert view[i..][1..] == view[i + 1..];
    }
    return None;
  }

  method AnchorBody(view: seq<Turn>, opId: OpId) returns (body: string)
    ensures body == var a := Anchor(view, opId); if a.Some? then a.value.body else ""
  {
    var a := FindAnchor(view, opId);
    return if a.Some? then a.value.body else "";
  }

  /*** The ancestry walk ***/

  /** `cand` provably triggered `op`: the binding test of the walker. */
  predicate Binds(cand: Turn, op: Turn) {
    cand.opId != op.opId && WakeOpID(cand.opId, op.author) == op.opId
  }

  /** Every candidate parent of `op`, in view order. */
  function Parents(view: seq<Turn>, op: Turn): (ps: seq<Turn>)
    ensures ps != [] ==> ps[|ps| - 1] in view && Binds(ps[|ps| - 1], op)
  {
    if view == [] then []
    else if Binds(view[|view| - 1], op) then Parents(view[..|view| - 1], op) + [view[|view| - 1]]
    else
      assert view == view[..|view| - 1] + [view[|view| - 1]];
      Parents(view[..|view| - 1], op)
  }

  lemma {:induction false} ParentsAre(view: seq<Turn>, op: Turn)
    ensures forall p :: p in Parents(view, op) <==> p in view && Binds(p, op)
  {
    if view != [] {
      ParentsAre(view[..|view| - 1], op);
      assert view == view[..|view| - 1] + [view[|view| - 1]];
    }
  }

  lemma ParentsStep(view: seq<Turn>, op: Turn, i: nat)
    requires i < |view|
    ensures Parents(view[..i + 1], op) == Parents(view[..i], op) + (if Binds(view[i], op) then [view[i]] else [])
  {
    assert view[..i + 1][..i] == view[..i];
  }

  /** Each candidate as often as the view holds it. */
  lemma {:induction false} ParentsCounted(view: seq<Turn>, op: Turn, t: Turn)
    ensures multiset(Parents(view, op))[t] == if Binds(t, op) then multiset(view)[t] else 0
  {
    if view != [] {
      var init, last := view[..|view| - 1], view[|view| - 1];
      ParentsCounted(init, op, t);
      assert view == init + [last];
    }
  }

  /** And the last of them is the view's last. */
  lemma {:induction false} ParentsEnd(view: seq<Turn>, op: Turn)
    requires Parents(view, op) != []
    ensures exists i :: 0 <= i < |view| && view[i] == Parents(view, op)[|Parents(view, op)| - 1]
                        && forall j | i < j < |view| :: !Binds(view[j], op)
  {
    var last := |view| - 1;
    if Binds(view[last], op) {
      assert view[last] == Parents(view, op)[|Parents(view, op)| - 1];
    } else {
      ParentsEnd(view[..last], op);
      var i :| 0 <= i < last && view[..last][i] == Parents(view[..last], op)[|Parents(view[..last], op)| - 1]
               && forall j | i < j < last :: !Binds(view[..last][j], op);
      assert forall j | i < j < last :: view[..last][j] == view[j];
      assert view[i] == Parents(view, op)[|Parents(view, op)| - 1];
    }
  }

  /** The source keeps the last candidate it meets and how many it met. */
  method ParentOf(view: seq<Turn>, op: Turn) returns (match_: Option<Turn>, n: nat)
    ensures n == |Parents(view, op)|
    ensures match_ == if n == 0 then None else Some(Parents(view, op)[n - 1])
  {
    match_, n := None, 0;
    for i := 0 to |view|
      invariant n == |Parents(view[..i], op)|
      invariant match_ == if n == 0 then None else Some(Parents(view[..i], op)[n - 1])
    {
      ParentsStep(view, op, i);
      if view[i].opId != op.opId && WakeOpID(view[i].opId, op.author) == op.opId {
        match_, n := Some(view[i]), n + 1;
      }
    }
    assert view[..|view|] == view;
  }

  /** The walk with no iteration bound at all: it ends because ids are acyclic. */
  function Chain(view: seq<Turn>, op: Turn): (c: seq<Turn>)
    ensures |c| >= 1 && c[0] == op
    decreases op.opId
  {
    var ps := Parents(view, op);
    if ps == [] then [op]
    else
      var p := ps[|ps| - 1];
      [op] + Chain(view, p)
  }

  /** How many links of that walk had more than one candidate. */
  function Ambiguities(view: seq<Turn>, op: Turn): nat
    decreases op.opId
  {
    var ps := Parents(view, op);
    if ps == [] then 0
    else
      var p := ps[|ps| - 1];
      (if |ps| > 1 then 1 else 0) + Ambiguities(view, p)
  }

  /** The elements of a walk with more than one candidate. */
  function AmbiguousLinks(view: seq<Turn>, walk: seq<Turn>): nat {
    if walk == [] then 0 else (if |Parents(view, walk[0])| > 1 then 1 else 0) + AmbiguousLinks(view, walk[1..])
  }

  lemma {:induction false} AmbiguitiesCounted(view: seq<Turn>, op: Turn)
    ensures Ambiguities(view, op) == AmbiguousLinks(view, Chain(view, op))
    decreases op.opId
  {
    if Parents(view, op) != [] {
      var p := LastParent(view, op);
      AmbiguitiesCounted(view, p);
      assert Chain(view, op)[1..] == Chain(view, p);
    } else {
      assert Chain(view, op)[1..] == [];
    }
  }

  lemma LastParent(view: seq<Turn>, op: Turn) returns (p: Turn)
    requires Parents(view, op) != []
    ensures p == Parents(view, op)[|Parents(view, op)| - 1]
    ensures p in view && op.opId == Outcome(p.opId, op.author)
    ensures Chain(view, op) == [op] + Chain(view, p)
    ensures Ambiguities(view, op) == (if |Parents(view, op)| > 1 then 1 else 0) + Ambiguities(view, p)
  {
    p := Parents(view, op)[|Parents(view, op)| - 1];
  }

  function Hops(view: seq<Turn>, op: Turn): nat { |Chain(view, op)| - 1 }

  function Depth(id: OpId): nat { if id.Outcome? then 1 + Depth(id.trigger) else 0 }

  function CountShallower(view: seq<Turn>, d: nat): (n: nat)
    ensures n <= |view|
  {
    if view == [] then 0
    else CountShallower(view[..|view| - 1], d) + (if Depth(view[|view| - 1].opId) < d then 1 else 0)
  }

  lemma {:induction false} CountShallowerGrows(view: seq<Turn>, t: Turn)
    ensures CountShallower(view, Depth(t.opId) + 1) >= CountShallower(view, Depth(t.opId))
              + (if t in view then 1 else 0)
  {
    if view != [] {
      var last := view[|view| - 1];
      assert view == view[..|view| - 1] + [last];
      CountShallowerGrows(view[..|view| - 1], t);
    }
  }

  /** Pigeonhole for the walk: one element per distinct depth. */
  lemma {:induction false} ChainFitsView(view: seq<Turn>, op: Turn)
    ensures Hops(view, op) <= CountShallower(view, Depth(op.opId))
    decreases op.opId
  {
    var ps := Parents(view, op);
    if ps != [] {
      var p := ps[|ps| - 1];
      ChainFitsView(view, p);
      CountShallowerGrows(view, p);
    }
  }

  /** The source's bounded walk; its bound never truncates the unbounded one, for any view and any op,
      present in the view or not. */
  method ChainToRoot(view: seq<Turn>, op: Turn) returns (chain: seq<Turn>, ambiguous: nat)
    ensures chain == Chain(view, op)
    ensures ambiguous == Ambiguities(view, op)
    ensures |chain| <= |view| + 1
  {
    ghost var walked: seq<Turn> := [];
    chain := [op];
    ambiguous := 0;
    var cur := op;
    for i := 0 to |view|
      invariant |walked| == i
      invariant chain == walked + [cur]
      invariant Chain(view, op) == walked + Chain(view, cur)
      invariant Ambiguities(view, op) == ambiguous + Ambiguities(view, cur)
    {
      var p, n := ParentOf(view, cur);
      if n == 0 {
        WalkedOut(view, op, walked, cur);
        return;
      }
      if n > 1 { ambiguous := ambiguous + 1; }
      WalkStep(view, op, walked, cur, p.value);
      walked := chain;
      chain := chain + [p.value];
      cur := p.value;
    }
    WalkedOut(view, op, walked, cur);
  }

  lemma Inhabited<T>(s: seq<T>)
    ensures s == [] || s[0] in s
  {}

  lemma WalkStep(view: seq<Turn>, op: Turn, walked: seq<Turn>, cur: Turn, p: Turn)
    requires Chain(view, op) == walked + Chain(view, cur)
    requires Parents(view, cur) != [] && p == Parents(view, cur)[|Parents(view, cur)| - 1]
    ensures Chain(view, op) == walked + [cur] + Chain(view, p)
    ensures Ambiguities(view, cur) == (if |Parents(view, cur)| > 1 then 1 else 0) + Ambiguities(view, p)
  {
    var q := LastParent(view, cur);
    assert walked + ([cur] + Chain(view, p)) == walked + [cur] + Chain(view, p);
  }

  /** A walk with nothing left to walk. */
  lemma WalkedOut(view: seq<Turn>, op: Turn, walked: seq<Turn>, cur: Turn)
    requires Chain(view, op) == walked + Chain(view, cur)
    requires Parents(view, cur) == [] || |walked| == |view|
    ensures Chain(view, op) == walked + [cur] && Ambiguities(view, cur) == 0
    ensures |walked| <= |view|
  {
    ChainFitsView(view, op);
  }

  method ProvableHops(view: seq<Turn>, op: Turn) returns (hops: nat)
    ensures hops == Hops(view, op)
  {
    var chain, _ := ChainToRoot(view, op);
    return |chain| - 1;
  }

  /** A chain the record proves: each element binds the one before it, and the last has no parent. */
  ghost predicate ProvableChain(view: seq<Turn>, c: seq<Turn>) {
    && |c| >= 1
    && if |c| == 1 then forall p | p in view :: !Binds(p, c[0])
       else c[1] in view && Binds(c[1], c[0]) && ProvableChain(view, c[1..])
  }

  lemma {:induction false} ChainIsProvable(view: seq<Turn>, op: Turn)
    ensures ProvableChain(view, Chain(view, op))
    decreases op.opId
  {
    ParentsAre(view, op);
    var ps := Parents(view, op);
    if ps != [] {
      var p := ps[|ps| - 1];
      ChainIsProvable(view, p);
      assert ([op] + Chain(view, p))[1..] == Chain(view, p);
    }
  }

  lemma {:induction false} ParentIsUnique(view: seq<Turn>, op: Turn)
    requires UniqueIds(view)
    ensures |Parents(view, op)| <= 1
  {
    if view != [] {
      var init, last := view[..|view| - 1], view[|view| - 1];
      ParentIsUnique(init, op);
      forall p | p in init ensures p.opId != last.opId {
        var i :| 0 <= i < |init| && init[i] == p;
        assert view[i] == p;
      }
    }
  }

  /** With unique op ids the walk is the only provable chain and no link is ambiguous. */
  lemma {:induction false} ChainIsTheOnlyOne(view: seq<Turn>, op: Turn, c: seq<Turn>)
    requires UniqueIds(view) && ProvableChain(view, c) && c[0] == op
    ensures c == Chain(view, op)
    ensures Ambiguities(view, op) == 0
    decreases op.opId
  {
    ParentIsUnique(view, op);
    ParentsAre(view, op);
    var ps := Parents(view, op);
    if |c| == 1 {
      Inhabited(ps);
    } else {
      assert c[1] in ps;
      assert ps == [c[1]];
      ChainIsTheOnlyOne(view, c[1], c[1..]);
      assert c == [op] + c[1..];
    }
  }

  /** Ids along the walk are pairwise distinct, whatever the view holds. */
  lemma {:induction false} ChainIdsDistinct(view: seq<Turn>, op: Turn)
    ensures forall k | 0 <= k < |Chain(view, op)| :: Depth(Chain(view, op)[k].opId) == Depth(op.opId) - k
    ensures forall i, j | 0 <= i < j < |Chain(view, op)| :: Chain(view, op)[i].opId != Chain(view, op)[j].opId
    decreases op.opId
  {
    var ps := Parents(view, op);
    if ps != [] {
      var p := ps[|ps| - 1];
      ChainIdsDistinct(view, p);
      assert forall k | 0 < k < |Chain(view, op)| :: Chain(view, op)[k] == Chain(view, p)[k - 1];
    }
    assert forall i, j | 0 <= i < j < |Chain(view, op)| ::
        Depth(Chain(view, op)[i].opId) != Depth(Chain(view, op)[j].opId);
  }

  /*** Hop counts as the record grows ***/

  /** `a` is a proper ancestor of `id`. */
  predicate Ancestor(a: OpId, id: OpId) {
    id.Outcome? && (id.trigger == a || Ancestor(a, id.trigger))
  }

  lemma {:induction false} ParentsOfConcat(view: seq<Turn>, ext: seq<Turn>, op: Turn)
    ensures Parents(view + ext, op) == Parents(view, op) + Parents(ext, op)
  {
    if ext == [] {
      assert view + ext == view;
    } else {
      var init := ext[..|ext| - 1];
      assert (view + ext)[..|view + ext| - 1] == view + init;
      ParentsOfConcat(view, init, op);
    }
  }

  lemma NoParents(view: seq<Turn>, op: Turn)
    requires forall t | t in view :: !Ancestor(t.opId, op.opId)
    ensures Parents(view, op) == []
  {
    Inhabited(Parents(view, op));
    ParentsAre(view, op);
    forall p | p in view ensures !Binds(p, op) { assert !Ancestor(p.opId, op.opId); }
  }

  /** Extending a view by ops that are no parent of `op` leaves its parents alone. */
  lemma ParentsStable(view: seq<Turn>, ext: seq<Turn>, op: Turn)
    requires forall t | t in ext :: !Ancestor(t.opId, op.opId)
    ensures Parents(view + ext, op) == Parents(view, op)
  {
    ParentsOfConcat(view, ext, op);
    NoParents(ext, op);
    assert Parents(view, op) + [] == Parents(view, op);
  }

  /** Appending ops none of which is an ancestor of `op` changes nothing about its chain. */
  lemma {:induction false} ChainStable(view: seq<Turn>, ext: seq<Turn>, op: Turn)
    requires forall t | t in ext :: !Ancestor(t.opId, op.opId)
    ensures Chain(view + ext, op) == Chain(view, op)
    decreases op.opId
  {
    ParentsStable(view, ext, op);
    if Parents(view, op) != [] {
      var p := LastParent(view, op);
      forall t | t in ext ensures !Ancestor(t.opId, p.opId) {
        assert !Ancestor(t.opId, op.opId);
      }
      ChainStable(view, ext, p);
    }
  }

  /** With unique ids a chain only ever gets longer. */
  lemma {:induction false} HopsNeverShrink(view: seq<Turn>, ext: seq<Turn>, op: Turn)
    requires UniqueIds(view + ext)
    ensures Hops(view, op) <= Hops(view + ext, op)
    decreases op.opId
  {
    if Parents(view, op) != [] {
      ParentIsUnique(view + ext, op);
      ParentsOfConcat(view, ext, op);
      var p := LastParent(view, op);
      var q := LastParent(view + ext, op);
      assert p == q;
      HopsNeverShrink(view, ext, p);
    }
  }

  /*** The wake budget ***/

  /** How many of the first n turns are the persona's own turn.posts stamped after `cut`. */
  function OwnAfterTo(view: seq<Turn>, persona: string, cut: int, n: nat): nat
    requires n <= |view|
  {
    if n == 0 then 0
    else
      OwnAfterTo(view, persona, cut, n - 1)
      + (if IsOwn(view[n - 1], persona) && view[n - 1].timestamp > cut then 1 else 0)
  }

  function OwnAfter(view: seq<Turn>, persona: string, cut: int): nat {
    OwnAfterTo(view, persona, cut, |view|)
  }

  function Decide(b: Budget, view: seq<Turn>, trigger: Turn, persona: string, now: int): Verdict {
    if b.maxHops > 0 && Hops(view, trigger) + 1 > b.maxHops then
      DepthRefused(Hops(view, trigger) + 1, b.maxHops)
    else if b.windowMax > 0 && OwnAfter(view, persona, now - b.windowPer) >= b.windowMax then
      WindowRefused(OwnAfter(view, persona, now - b.windowPer), b.windowPer, b.windowMax)
    else Admitted
  }

  method BudgetDecision(b: Budget, view: seq<Turn>, trigger: Turn, persona: string, now: int) returns (v: Verdict)
    ensures v == Decide(b, view, trigger, persona, now)
  {
    if b.maxHops > 0 {
      var hops := ProvableHops(view, trigger);
      if hops + 1 > b.maxHops { return DepthRefused(hops + 1, b.maxHops); }
    }
    if b.windowMax > 0 {
      var cut := now - b.windowPer;
      var n := 0;
      for i := 0 to |view|
        invariant n == OwnAfterTo(view, persona, cut, i)
      {
        if IsOwn(view[i], persona) && view[i].timestamp > cut { n := n + 1; }
      }
      if n >= b.windowMax { return WindowRefused(n, b.windowPer, b.windowMax); }
    }
    return Admitted;
  }

  /** The places of the persona's own turn.posts stamped after the cut, among the first n turns. */
  function OwnPlaces(view: seq<Turn>, persona: string, cut: int, n: nat): set<int>
    requires n <= |view|
  {
    set i | 0 <= i < n && view[i].author == persona && view[i].kind == "turn.post" && view[i].timestamp > cut
  }

  lemma {:induction false} WindowCounted(view: seq<Turn>, persona: string, cut: int, n: nat)
    requires n <= |view|
    ensures OwnAfterTo(view, persona, cut, n) == |OwnPlaces(view, persona, cut, n)|
  {
    if n > 0 {
      WindowCounted(view, persona, cut, n - 1);
      var own := IsOwn(view[n - 1], persona) && view[n - 1].timestamp > cut;
      assert OwnPlaces(view, persona, cut, n) ==
             OwnPlaces(view, persona, cut, n - 1) + if own then {n - 1} else {};
    }
  }

  /** The decision in full. A wake is admitted exactly when its outcome would sit within a depth bound that is set
      and fewer own turns than a window bound that is set lie within the window; a refusal carries the numbers
      of the first part that spoke. */
  lemma BudgetVerdict(b: Budget, view: seq<Turn>, trigger: Turn, persona: string, now: int)
    ensures var hops, own := |Chain(view, trigger)|, |OwnPlaces(view, persona, now - b.windowPer, |view|)|;
            var deep, full := b.maxHops > 0 && hops > b.maxHops, b.windowMax > 0 && own >= b.windowMax;
            Decide(b, view, trigger, persona, now) ==
            if deep then DepthRefused(hops, b.maxHops)
            else if full then WindowRefused(own, b.windowPer, b.windowMax)
            else Admitted
  {
    WindowCounted(view, persona, now - b.windowPer, |view|);
  }

  /** A depth refusal is permanent: no later clock and no growth of the record lifts it. */
  lemma DepthRefusalIsPermanent(b: Budget, view: seq<Turn>, ext: seq<Turn>, trigger: Turn,
      persona: string, now: int, later: int)
    requires Decide(b, view, trigger, persona, now).DepthRefused?
    requires UniqueIds(view + ext)
    ensures Decide(b, view + ext, trigger, persona, later).DepthRefused?
  {
    HopsNeverShrink(view, ext, trigger);
  }

  lemma {:induction false} OwnAfterExpires(view: seq<Turn>, persona: string, cut: int, n: nat)
    requires n <= |view| && forall t | t in view :: t.timestamp <= cut
    ensures OwnAfterTo(view, persona, cut, n) == 0
  {
    if n > 0 { OwnAfterExpires(view, persona, cut, n - 1); }
  }

  function LatestStamp(view: seq<Turn>): (m: int)
    ensures forall t | t in view :: t.timestamp <= m
  {
    if view == [] then 0
    else
      var last := view[|view| - 1];
      var m := LatestStamp(view[..|view| - 1]);
      assert view == view[..|view| - 1] + [last];
      if last.timestamp > m then last.timestamp else m
  }

  /** When exhaustion is only a delay: a refused wake is admitted at some later time over the same view
      exactly when the depth bound was not what refused it. The documented promise that exhaustion is
      never a loss holds for the window part alone. */
  lemma RefusalIsADelayIffNotDepth(b: Budget, view: seq<Turn>, trigger: Turn, persona: string,
      now: int)
    requires !Decide(b, view, trigger, persona, now).Admitted?
    ensures (exists later :: later >= now && Decide(b, view, trigger, persona, later).Admitted?)
            <==> (b.maxHops <= 0 || Hops(view, trigger) + 1 <= b.maxHops)
  {
    if b.maxHops <= 0 || Hops(view, trigger) + 1 <= b.maxHops {
      var m := LatestStamp(view);
      var later := if now > m + b.windowPer then now else m + b.windowPer;
      OwnAfterExpires(view, persona, later - b.windowPer, |view|);
      assert Decide(b, view, trigger, persona, later).Admitted?;
    }
  }
}
