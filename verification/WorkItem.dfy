/**
 The work-item fold placements ride on, as the rules of fleet/fleet.go and dispatcher/dispatcher.go state
 it: the first claim on an open item is live and later ones are void, an abandon by anyone reopens a
 claimed item, and done is terminal. A log is append-only, so a view of it is a prefix.
*/
module WorkItem {
  import opened Wrappers

  /** What a placement's body declares, as far as placement is concerned. */
  datatype Decl = Decl(persona: string, agent: bool, wakes: nat)

  datatype OpKind = OpenOp(decl: Option<Decl>) | ClaimOp | AbandonOp | DoneOp

  datatype WorkOp = WorkOp(item: string, kind: OpKind, actor: string, at: int)

  datatype Status = Absent | Open | Claimed(owner: string) | Closed

  function StepStatus(st: Status, op: WorkOp): Status {
    match op.kind
    case OpenOp(_) => if st.Absent? then Open else st
    case ClaimOp => if st.Open? then Claimed(op.actor) else st
    case AbandonOp => if st.Claimed? then Open else st
    case DoneOp => if st.Open? || st.Claimed? then Closed else st
  }

  /** An op the fold ignores. */
  predicate Void(st: Status, op: WorkOp) { StepStatus(st, op) == st }

  /** The item's status after the first n ops. */
  function StatusAt(log: seq<WorkOp>, item: string, n: nat): Status
    requires n <= |log|
  {
    if n == 0 then Absent
    else
      var st := StatusAt(log, item, n - 1);
      if log[n - 1].item == item then StepStatus(st, log[n - 1]) else st
  }

  function StatusOf(log: seq<WorkOp>, item: string): Status { StatusAt(log, item, |log|) }

  predicate LiveAt(log: seq<WorkOp>, item: string, k: nat)
    requires k < |log|
  {
    log[k].item == item && !Void(StatusAt(log, item, k), log[k])
  }

  /** Opened items, in the order they were opened, the order the projection lists them in. */
  function Opened(log: seq<WorkOp>, n: nat): seq<string>
    requires n <= |log|
  {
    if n == 0 then []
    else if log[n - 1].kind.OpenOp? && LiveAt(log, log[n - 1].item, n - 1) then Opened(log, n - 1) + [log[n - 1].item]
    else Opened(log, n - 1)
  }

  /** The declaration of the op that opened the item, None when it opened no placement. */
  function DeclAt(log: seq<WorkOp>, item: string, n: nat): Option<Decl>
    requires n <= |log|
  {
    if n == 0 then None
    else if log[n - 1].kind.OpenOp? && LiveAt(log, item, n - 1) then log[n - 1].kind.decl
    else DeclAt(log, item, n - 1)
  }

  function DeclOf(log: seq<WorkOp>, item: string): Option<Decl> { DeclAt(log, item, |log|) }

  /*** Views ***/

  lemma {:induction false} PrefixFold(view: seq<WorkOp>, log: seq<WorkOp>, item: string, n: nat)
    requires view <= log && n <= |view|
    ensures StatusAt(view, item, n) == StatusAt(log, item, n)
    ensures DeclAt(view, item, n) == DeclAt(log, item, n)
  {
    if n > 0 { PrefixFold(view, log, item, n - 1); }
  }

  /** The rules of the fold, told of logs: what one more op does to the item it names and to no other. The first
      claim on an open item takes it and a later one is void; an abandon by anybody reopens a claimed item;
      done closes an open or a claimed one, for good; opening counts once. */
  lemma FoldRules(log: seq<WorkOp>, op: WorkOp, item: string)
    ensures var was, now := StatusOf(log, item), StatusOf(log + [op], item);
            && (op.item != item || was.Closed? ==> now == was)
            && (op.item == item && op.kind.ClaimOp? && was.Open? ==> now == Claimed(op.actor))
            && (op.item == item && op.kind.ClaimOp? && !was.Open? ==> now == was)
            && (op.item == item && op.kind.AbandonOp? ==> now == if was.Claimed? then Open else was)
            && (op.item == item && op.kind.DoneOp? && !was.Absent? ==> now == Closed)
            && (op.item == item && op.kind.OpenOp? ==> now == if was.Absent? then Open else was)
            && (was.Absent? && !op.kind.OpenOp? ==> now == was)
  {
    PrefixFold(log, log + [op], item, |log|);
  }

  /** An item is there from its first opening on. */
  lemma {:induction false} AbsentIff(log: seq<WorkOp>, item: string, n: nat)
    requires n <= |log|
    ensures StatusAt(log, item, n).Absent? <==> forall k | 0 <= k < n :: log[k].item != item || !log[k].kind.OpenOp?
    ensures StatusAt(log, item, n).Absent? <==> item !in Opened(log, n)
  {
    if n > 0 { AbsentIff(log, item, n - 1); }
  }

  /** The first opening says what is placed, and no later op changes that. */
  lemma {:induction false} FirstOpeningDeclares(log: seq<WorkOp>, item: string, k: nat, n: nat)
    requires k < n <= |log| && log[k].item == item && log[k].kind.OpenOp?
    requires forall i | 0 <= i < k :: log[i].item != item || !log[i].kind.OpenOp?
    ensures DeclAt(log, item, n) == log[k].kind.decl
  {
    AbsentIff(log, item, n - 1);
    if k < n - 1 {
      FirstOpeningDeclares(log, item, k, n - 1);
      assert !StatusAt(log, item, n - 1).Absent?;
    }
  }

  lemma {:induction false} ClosedIsTerminal(log: seq<WorkOp>, item: string, i: nat, j: nat)
    requires i <= j <= |log| && StatusAt(log, item, i).Closed?
    ensures StatusAt(log, item, j).Closed?
  {
    if i < j { ClosedIsTerminal(log, item, i, j - 1); }
  }

  /** Ownership changes hands only on the record: between two views that name different owners of an
      item, the log holds a live abandon of it and, later, the live claim of the second owner. */
  lemma {:induction false} OwnershipChangesOnTheRecord(log: seq<WorkOp>, item: string, i: nat, j: nat)
    returns (a: nat, c: nat)
    requires i <= j <= |log|
    requires StatusAt(log, item, i).Claimed? && StatusAt(log, item, j).Claimed?
    requires StatusAt(log, item, i).owner != StatusAt(log, item, j).owner
    ensures i <= a < c < j
    ensures LiveAt(log, item, a) && log[a].kind.AbandonOp?
    ensures LiveAt(log, item, c) && log[c].kind.ClaimOp? && log[c].actor == StatusAt(log, item, j).owner
  {
    var st := StatusAt(log, item, j - 1);
    if st == StatusAt(log, item, j) {
      a, c := OwnershipChangesOnTheRecord(log, item, i, j - 1);
    } else {
      c := j - 1;
      a := LastReopening(log, item, i, c);
    }
  }

  lemma {:induction false} LastReopening(log: seq<WorkOp>, item: string, i: nat, j: nat) returns (a: nat)
    requires i <= j <= |log| && StatusAt(log, item, i).Claimed? && StatusAt(log, item, j).Open?
    ensures i <= a < j && LiveAt(log, item, a) && log[a].kind.AbandonOp?
  {
    if StatusAt(log, item, j - 1).Open? {
      a := LastReopening(log, item, i, j - 1);
    } else {
      a := j - 1;
      if StatusAt(log, item, a).Absent? { NeverAbsentAgain(log, item, i, a); }
    }
  }

  lemma {:induction false} NeverAbsentAgain(log: seq<WorkOp>, item: string, i: nat, j: nat)
    requires i <= j <= |log| && !StatusAt(log, item, i).Absent?
    ensures !StatusAt(log, item, j).Absent?
  {
    if i < j { NeverAbsentAgain(log, item, i, j - 1); }
  }

  /** A node that started serving, and the log position of the view it started from. */
  datatype Start = Start(node: string, item: string, pos: nat)

  /** That view named the node owner. */
  predicate Justified(log: seq<WorkOp>, s: Start) {
    s.pos <= |log| && StatusAt(log, s.item, s.pos) == Claimed(s.node)
  }

  /*** What an abandon gives up ***/

  /** Nothing live has happened to the item between two positions. */
  ghost predicate Undisturbed(log: seq<WorkOp>, item: string, from: nat, to: nat)
    requires from <= to <= |log|
  {
    forall k | from <= k < to :: !LiveAt(log, item, k)
  }

  ghost predicate Steady(log: seq<WorkOp>, item: string, from: nat, to: nat)
    requires from <= to <= |log|
  {
    forall n | from <= n <= to :: StatusAt(log, item, n) == StatusAt(log, item, from)
  }

  lemma {:induction false} SameStatus(log: seq<WorkOp>, item: string, from: nat, to: nat)
    requires from <= to <= |log|
    ensures Undisturbed(log, item, from, to) <==> Steady(log, item, from, to)
  {
    if from < to {
      SameStatus(log, item, from, to - 1);
      assert LiveAt(log, item, to - 1) <==> StatusAt(log, item, to) != StatusAt(log, item, to - 1);
      if Steady(log, item, from, to) { assert Steady(log, item, from, to - 1); }
      if Undisturbed(log, item, from, to) { assert Undisturbed(log, item, from, to - 1); }
      if Steady(log, item, from, to - 1) { assert StatusAt(log, item, to - 1) == StatusAt(log, item, from); }
    }
  }

  /** What an abandon gave up that was published by a view naming `owner`. It gave up the very claim that view
      showed exactly when nothing live had happened to the item since. It was live exactly when the item was
      claimed where it landed, and then the item is open; and if somebody else had it there, the record shows
      the live abandon and the live claim the view did not. */
  ghost predicate GivesUp(log: seq<WorkOp>, log': seq<WorkOp>, item: string, view: nat, owner: string)
    requires view <= |log| < |log'|
  {
    && (Undisturbed(log, item, view, |log|) <==>
          forall m | view <= m <= |log| :: StatusAt(log, item, m) == Claimed(owner))
    && (LiveAt(log', item, |log|) <==> StatusOf(log, item).Claimed?)
    && (StatusOf(log, item).Claimed? ==> StatusOf(log', item).Open?)
    && (StatusOf(log, item).Claimed? && StatusOf(log, item).owner != owner ==>
          exists a, c | view <= a < c < |log| :: LiveAt(log, item, a) && log[a].kind.AbandonOp?
            && LiveAt(log, item, c) && log[c].kind.ClaimOp? && log[c].actor == StatusOf(log, item).owner)
  }

  lemma AbandonGivesUp(log: seq<WorkOp>, item: string, view: nat, owner: string, actor: string, at: int)
    requires view <= |log| && StatusAt(log, item, view) == Claimed(owner)
    ensures GivesUp(log, log + [WorkOp(item, AbandonOp, actor, at)], item, view, owner)
  {
    var n := |log|;
    SameStatus(log, item, view, n);
    var log' := log + [WorkOp(item, AbandonOp, actor, at)];
    PrefixFold(log, log', item, n);
    assert log'[n] == WorkOp(item, AbandonOp, actor, at) && StatusAt(log', item, n) == StatusOf(log, item);
    assert StatusOf(log', item) == StepStatus(StatusAt(log', item, n), log'[n]);
    assert Void(StatusAt(log', item, n), log'[n]) <==> !StatusOf(log, item).Claimed?;
    assert LiveAt(log', item, n) <==> StatusOf(log, item).Claimed?;
    if StatusOf(log, item).Claimed? && StatusOf(log, item).owner != owner {
      var a, c := OwnershipChangesOnTheRecord(log, item, view, n);
    }
  }

  /*** Timelines ***/

  datatype Event = Event(kind: OpKind, actor: string, at: int, isVoid: bool)

  /** The projected timeline of an item: every claim, abandon and done, void ones included. */
  function Timeline(log: seq<WorkOp>, item: string, n: nat): seq<Event>
    requires n <= |log|
  {
    if n == 0 then []
    else
      var op := log[n - 1];
      Timeline(log, item, n - 1)
      + (if op.item == item && !op.kind.OpenOp?
         then [Event(op.kind, op.actor, op.at, Void(StatusAt(log, item, n - 1), op))] else [])
  }

  function LiveKinds(tl: seq<Event>, n: nat): seq<OpKind>
    requires n <= |tl|
  {
    if n == 0 then []
    else LiveKinds(tl, n - 1) + (if tl[n - 1].isVoid then [] else [tl[n - 1].kind])
  }

  /** Claim and abandon in turn, starting with claim; done only at the end. */
  ghost predicate InLanguage(ks: seq<OpKind>) {
    forall i | 0 <= i < |ks| ::
      if ks[i].DoneOp? then i == |ks| - 1 else ks[i] == if i % 2 == 0 then ClaimOp else AbandonOp
  }

  predicate Tells(ks: seq<OpKind>, st: Status) {
    match st
    case Claimed(_) => |ks| % 2 == 1 && !ks[|ks| - 1].DoneOp?
    case Closed => |ks| > 0 && ks[|ks| - 1].DoneOp?
    case Open => |ks| % 2 == 0 && (|ks| > 0 ==> !ks[|ks| - 1].DoneOp?)
    case Absent => ks == []
  }

  lemma LiveKindsSnoc(tl: seq<Event>, e: Event)
    ensures LiveKinds(tl + [e], |tl| + 1) == LiveKinds(tl, |tl|) + (if e.isVoid then [] else [e.kind])
  {
    LiveKindsPrefix(tl, tl + [e], |tl|);
  }

  lemma {:induction false} LiveKindsPrefix(a: seq<Event>, b: seq<Event>, n: nat)
    requires a <= b && n <= |a|
    ensures LiveKinds(a, n) == LiveKinds(b, n)
  {
    if n > 0 { LiveKindsPrefix(a, b, n - 1); }
  }

  lemma LanguageStep(ks: seq<OpKind>, st: Status, op: WorkOp)
    requires InLanguage(ks) && Tells(ks, st) && !Void(st, op) && !op.kind.OpenOp?
    ensures InLanguage(ks + [op.kind]) && Tells(ks + [op.kind], StepStatus(st, op))
  {
    var grown := ks + [op.kind];
    assert |ks| > 0 ==> !ks[|ks| - 1].DoneOp?;
    assert grown[|ks|] == op.kind;
    forall i | 0 <= i < |ks| ensures grown[i] == ks[i] {}
  }

  function LiveWord(log: seq<WorkOp>, item: string, n: nat): seq<OpKind>
    requires n <= |log|
  {
    LiveKinds(Timeline(log, item, n), |Timeline(log, item, n)|)
  }

  lemma LiveWordStep(log: seq<WorkOp>, item: string, n: nat)
    requires 0 < n <= |log|
    ensures LiveWord(log, item, n)
            == LiveWord(log, item, n - 1)
                + (if LiveAt(log, item, n - 1) && !log[n - 1].kind.OpenOp? then [log[n - 1].kind] else [])
  {
    var op, tl := log[n - 1], Timeline(log, item, n - 1);
    if op.item == item && !op.kind.OpenOp? {
      LiveKindsSnoc(tl, Event(op.kind, op.actor, op.at, Void(StatusAt(log, item, n - 1), op)));
    } else {
      assert Timeline(log, item, n) == tl;
    }
  }

  /** The live part of every timeline is in the language, and its last word is the status. */
  lemma {:induction false} LiveTimelineLanguage(log: seq<WorkOp>, item: string, n: nat)
    requires n <= |log|
    ensures InLanguage(LiveWord(log, item, n)) && Tells(LiveWord(log, item, n), StatusAt(log, item, n))
  {
    if n > 0 {
      LiveTimelineLanguage(log, item, n - 1);
      LiveWordStep(log, item, n);
      if LiveAt(log, item, n - 1) && !log[n - 1].kind.OpenOp? {
        LanguageStep(LiveWord(log, item, n - 1), StatusAt(log, item, n - 1), log[n - 1]);
      } else {
        assert LiveWord(log, item, n) == LiveWord(log, item, n - 1);
      }
    }
  }

  /** The last live claim among the first n events. */
  function LastClaim(tl: seq<Event>, n: nat): Option<Event>
    requires n <= |tl|
  {
    if n == 0 then None
    else if tl[n - 1].kind.ClaimOp? && !tl[n - 1].isVoid then Some(tl[n - 1])
    else LastClaim(tl, n - 1)
  }

  /** lastClaimAt: the backward scan. */
  method LastClaimAt(tl: seq<Event>) returns (at: Option<int>)
    ensures at == if LastClaim(tl, |tl|).Some? then Some(LastClaim(tl, |tl|).value.at) else None
  {
    var i := |tl|;
    while i > 0
      invariant 0 <= i <= |tl| && LastClaim(tl, |tl|) == LastClaim(tl, i)
    {
      i := i - 1;
      if tl[i].kind.ClaimOp? && !tl[i].isVoid { return Some(tl[i].at); }
    }
    return None;
  }

  lemma {:induction false} LastClaimPrefix(a: seq<Event>, b: seq<Event>, n: nat)
    requires a <= b && n <= |a|
    ensures LastClaim(a, n) == LastClaim(b, n)
  {
    if n > 0 { LastClaimPrefix(a, b, n - 1); }
  }

  /** Whenever the forward fold says claimed, the backward scan finds the very claim that installed the
      current owner, who has owned the item ever since. */
  lemma {:induction false} LastClaimIsTheTenure(log: seq<WorkOp>, item: string, n: nat) returns (k: nat)
    requires n <= |log| && StatusAt(log, item, n).Claimed?
    ensures k < n && LiveAt(log, item, k) && log[k].kind.ClaimOp?
    ensures forall j | k < j <= n :: StatusAt(log, item, j) == Claimed(log[k].actor)
    ensures var tl := Timeline(log, item, n);
            LastClaim(tl, |tl|) == Some(Event(ClaimOp, log[k].actor, log[k].at, false))
  {
    var tl := Timeline(log, item, n - 1);
    if StatusAt(log, item, n - 1) == StatusAt(log, item, n) {
      k := LastClaimIsTheTenure(log, item, n - 1);
      LastClaimPrefix(tl, Timeline(log, item, n), |tl|);
    } else {
      k := n - 1;
    }
  }

  /*** The reclaim pass ***/

  /** What a sweep asks of the world, one answer per item: the time it is examined at, and whether its owner
      answered the probe. */
  datatype Conditions = Conditions(now: string -> int, alive: (string, string) -> bool)

  predicate Nominated(view: seq<WorkOp>, node: string, bound: int, w: Conditions, item: string) {
    && StatusOf(view, item).Claimed? && StatusOf(view, item).owner != node
    && DeclOf(view, item).Some?
    && var tl := Timeline(view, item, |view|);
       LastClaim(tl, |tl|).Some? && w.now(item) - LastClaim(tl, |tl|).value.at >= bound
  }

  /** The items a sweep abandons: nominated by the projection and not vetoed by the owner. */
  predicate Silent(view: seq<WorkOp>, node: string, bound: int, w: Conditions, item: string) {
    Nominated(view, node, bound, w, item) && !w.alive(StatusOf(view, item).owner, item)
  }

  function Plan(view: seq<WorkOp>, node: string, bound: int, w: Conditions, items: seq<string>, n: nat): seq<string>
    requires n <= |items|
  {
    if n == 0 then []
    else
      Plan(view, node, bound, w, items, n - 1)
      + (if Silent(view, node, bound, w, items[n - 1]) then [items[n - 1]] else [])
  }

  lemma {:induction false} PlanIsTheSilent(view: seq<WorkOp>, node: string, bound: int, w: Conditions,
      items: seq<string>, n: nat)
    requires n <= |items|
    ensures forall x :: x in Plan(view, node, bound, w, items, n)
              <==> x in items[..n] && Silent(view, node, bound, w, x)
  {
    if n > 0 {
      PlanIsTheSilent(view, node, bound, w, items, n - 1);
      assert items[..n] == items[..n - 1] + [items[n - 1]];
    }
  }

  lemma {:induction false} PlanPrefix(view: seq<WorkOp>, node: string, bound: int, w: Conditions, items: seq<string>,
      n: nat, m: nat)
    requires n <= m <= |items|
    ensures Plan(view, node, bound, w, items, n) <= Plan(view, node, bound, w, items, m)
  {
    if n < m { PlanPrefix(view, node, bound, w, items, n, m - 1); }
  }

  /** Which claimed items a sweep abandons, relative to its view: never its own, never an item that is no
      placement, never one whose owner answers; and the age it tests is the current owner's tenure. */
  lemma SweepMeasuresTenure(view: seq<WorkOp>, node: string, bound: int, w: Conditions, item: string) returns (k: nat)
    requires StatusOf(view, item).Claimed?
    ensures k < |view| && LiveAt(view, item, k) && view[k].actor == StatusOf(view, item).owner
    ensures forall j | k < j <= |view| :: StatusAt(view, item, j) == StatusOf(view, item)
    ensures Silent(view, node, bound, w, item) <==>
              view[k].actor != node && DeclOf(view, item).Some? && w.now(item) - view[k].at >= bound
              && !w.alive(view[k].actor, item)
  {
    k := LastClaimIsTheTenure(view, item, |view|);
  }
}
