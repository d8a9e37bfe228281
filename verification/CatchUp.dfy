/**
 What a topic wake replays, and the bounded queue it replays into (wrap/sources.go, wrap/wrap.go).
*/
module CatchUp {
  import opened Correlate
  import opened WakeProtocol

  const QUEUE_CAP: nat := 64

  datatype Attachment = Attachment(opId: OpId, author: string, name: string)

  /** One declared topic wake; no types means turn.post alone. */
  datatype TopicSource = TopicSource(path: string, types: seq<string>)

  const ATTACHMENT_ADD := "attachment.add"

  function Types(src: TopicSource): set<string> {
    if src.types == [] then {TURN_POST} else set t | t in src.types
  }

  method TypeSet(types: seq<string>) returns (want: set<string>)
    ensures want == Types(TopicSource("", types))
    ensures forall t :: t in want <==> t in types || (types == [] && t == "turn.post")
  {
    if |types| == 0 { return {TURN_POST}; }
    want := {};
    for i := 0 to |types|
      invariant want == set t | t in types[..i]
    {
      want := want + {types[i]};
      assert types[..i + 1] == types[..i] + [types[i]];
    }
    assert types[..|types|] == types;
  }

  /*** What is replayed ***/

  predicate Unanswered(view: seq<Turn>, persona: string, author: string, opId: OpId) {
    author != persona && WakeOpID(opId, persona) !in Ids(view)
  }

  predicate Wanted(view: seq<Turn>, persona: string, src: TopicSource, t: Turn) {
    t.kind in Types(src) && Unanswered(view, persona, t.author, t.opId)
  }

  function WakeFor(src: TopicSource, t: Turn): Wake { Wake(src.path, t.opId, t.author, TopicWake, "") }

  function AttachmentWake(src: TopicSource, a: Attachment): Wake {
    Wake(src.path, a.opId, a.author, TopicWake, "attachment \"" + a.name + "\" added")
  }

  /** The wakes of the first n contributions, in view order. */
  function Turns(view: seq<Turn>, persona: string, src: TopicSource, n: nat): seq<Wake>
    requires n <= |view|
  {
    if n == 0 then []
    else
      Turns(view, persona, src, n - 1)
      + (if Wanted(view, persona, src, view[n - 1]) then [WakeFor(src, view[n - 1])] else [])
  }

  function Files(view: seq<Turn>, files: seq<Attachment>, persona: string, src: TopicSource, n: nat): seq<Wake>
    requires n <= |files|
  {
    if n == 0 then []
    else
      Files(view, files, persona, src, n - 1)
      + (if Unanswered(view, persona, files[n - 1].author, files[n - 1].opId)
         then [AttachmentWake(src, files[n - 1])] else [])
  }

  function Pending(view: seq<Turn>, files: seq<Attachment>, persona: string, src: TopicSource): seq<Wake> {
    Turns(view, persona, src, |view|)
    + (if ATTACHMENT_ADD in Types(src) then Files(view, files, persona, src, |files|) else [])
  }

  /*** The queue ***/

  /** `q` is an interleaving of two sequences. */
  ghost predicate Shuffled(q: seq<Wake>, mine: seq<Wake>, others: seq<Wake>) {
    if q == [] then mine == [] && others == []
    else
      var init, last := q[..|q| - 1], q[|q| - 1];
      || (mine != [] && mine[|mine| - 1] == last && Shuffled(init, mine[..|mine| - 1], others))
      || (others != [] && others[|others| - 1] == last && Shuffled(init, mine, others[..|others| - 1]))
  }

  /** The wake channel. Every live subscription and the tick consumer send on it at any time; its one
      receiver is the goroutine that also runs catch-up, so while catch-up runs nothing leaves it. */
  class WakeQueue {
    var items: seq<Wake>

    constructor ()
      ensures items == []
    {
      items := [];
    }

    method TryEnqueue(w: Wake) returns (ok: bool)
      modifies this
      ensures ok <==> |old(items)| < QUEUE_CAP
      ensures items == old(items) + (if ok then [w] else [])
    {
      ok := |items| < QUEUE_CAP;
      if ok { items := items + [w]; }
    }

    /** The other senders: any number of live wakes, each dropped when there is no room. */
    method Arrivals() returns (ghost arrived: seq<Wake>)
      requires |items| <= QUEUE_CAP
      modifies this
      ensures items == old(items) + arrived && |items| <= QUEUE_CAP
    {
      arrived := [];
      var n: int := *;
      while n > 0
        invariant items == old(items) + arrived && |items| <= QUEUE_CAP
      {
        var w: Wake := *;
        var ok := TryEnqueue(w);
        if ok { arrived := arrived + [w]; }
        n := n - 1;
      }
    }

    /** A blocking send from the receiving goroutine, after whatever else was sent meanwhile: on a full queue
        it ends only by cancellation, and ok is false. */
    method BlockEnqueue(w: Wake) returns (ok: bool, ghost arrived: seq<Wake>)
      requires |items| <= QUEUE_CAP
      modifies this
      ensures |items| <= QUEUE_CAP
      ensures ok <==> |old(items)| + |arrived| < QUEUE_CAP
      ensures items == old(items) + arrived + (if ok then [w] else [])
      ensures |old(items)| + |arrived| <= QUEUE_CAP
    {
      arrived := Arrivals();
      ok := TryEnqueue(w);
    }
  }

  /** An op as it arrives live; `name` is what an attachment's payload says, empty when it says nothing. */
  datatype LiveOp = LiveOp(opId: OpId, author: string, kind: string, name: string)

  /** subscribeTopicWake's callback: a foreign op of a declared type is sent if there is room, whether or not
      it was answered; admission finds that out. */
  method OnTopicOp(src: TopicSource, persona: string, op: LiveOp, queue: WakeQueue) returns (sent: bool)
    modifies queue
    ensures sent <==> op.author != persona && (op.kind in src.types || (src.types == [] && op.kind == "turn.post"))
                      && |old(queue.items)| < QUEUE_CAP
    ensures !sent ==> queue.items == old(queue.items)
    ensures sent ==>
              && |queue.items| == |old(queue.items)| + 1 && old(queue.items) <= queue.items
              && var w := queue.items[|old(queue.items)|];
                 && w.topic == src.path && w.opId == op.opId && w.author == op.author && w.kind == WakeKind.TopicWake
                 && w.body == if op.kind == "attachment.add" && op.name != ""
                              then "attachment \"" + op.name + "\" added" else ""
  {
    var want := TypeSet(src.types);
    if op.author == persona || op.kind !in want { return false; }
    var body := "";
    if op.kind == ATTACHMENT_ADD && op.name != "" { body := "attachment \"" + op.name + "\" added"; }
    sent := queue.TryEnqueue(Wake(src.path, op.opId, op.author, TopicWake, body));
  }

  /** What catch-up sends, given what was queued and what else got in before its last send. */
  function Fitting(queued: nat, arrivals: nat, backlog: seq<Wake>): seq<Wake> {
    if queued + arrivals + |backlog| <= QUEUE_CAP then backlog
    else if queued + arrivals <= QUEUE_CAP then backlog[..QUEUE_CAP - queued - arrivals]
    else []
  }

  /** The queue after catch-up has sent `sent`, `others` having arrived in between. */
  ghost predicate Queued(was: seq<Wake>, items: seq<Wake>, sent: seq<Wake>, others: seq<Wake>) {
    was <= items && Shuffled(items[|was|..], sent, others) && |items| <= QUEUE_CAP
  }

  lemma {:induction false} ShuffledSize(q: seq<Wake>, mine: seq<Wake>, others: seq<Wake>)
    requires Shuffled(q, mine, others)
    ensures |q| == |mine| + |others|
  {
    if q != [] {
      var init, last := q[..|q| - 1], q[|q| - 1];
      if mine != [] && mine[|mine| - 1] == last && Shuffled(init, mine[..|mine| - 1], others) {
        ShuffledSize(init, mine[..|mine| - 1], others);
      } else {
        ShuffledSize(init, mine, others[..|others| - 1]);
      }
    }
  }

  /** Without arrivals the backlog is queued as it is. */
  lemma {:induction false} ShuffledAlone(q: seq<Wake>, mine: seq<Wake>)
    requires Shuffled(q, mine, [])
    ensures q == mine
  {
    if q != [] { ShuffledAlone(q[..|q| - 1], mine[..|mine| - 1]); }
  }

  lemma {:induction false} ShuffledArrive(q: seq<Wake>, mine: seq<Wake>, others: seq<Wake>, more: seq<Wake>)
    requires Shuffled(q, mine, others)
    ensures Shuffled(q + more, mine, others + more)
  {
    if more == [] {
      assert q + more == q && others + more == others;
    } else {
      var init := more[..|more| - 1];
      ShuffledArrive(q, mine, others, init);
      assert (q + more)[..|q + more| - 1] == q + init;
      assert (others + more)[..|others + more| - 1] == others + init;
    }
  }

  lemma ShuffledSend(q: seq<Wake>, mine: seq<Wake>, others: seq<Wake>, w: Wake)
    requires Shuffled(q, mine, others)
    ensures Shuffled(q + [w], mine + [w], others)
  {
    assert (q + [w])[..|q|] == q && (mine + [w])[..|mine|] == mine;
  }

  /** One send: what arrived meanwhile, and then the wake if there was room. */
  lemma QueuedStep(was: seq<Wake>, items: seq<Wake>, sent: seq<Wake>, others: seq<Wake>,
                   more: seq<Wake>, w: Wake, ok: bool)
    requires Queued(was, items, sent, others) && |items| + |more| + (if ok then 1 else 0) <= QUEUE_CAP
    ensures Queued(was, items + more + (if ok then [w] else []), if ok then sent + [w] else sent, others + more)
    ensures |items| == |was| + |sent| + |others|
  {
    var tail := items[|was|..];
    ShuffledSize(tail, sent, others);
    ShuffledArrive(tail, sent, others, more);
    assert (items + more)[|was|..] == tail + more;
    if ok {
      ShuffledSend(tail + more, sent, others + more, w);
      assert (items + more + [w])[|was|..] == tail + more + [w];
    } else {
      assert items + more + [] == items + more;
    }
  }

  /** catchUpTopicWake: sends the pending wakes in view order, interleaved with whatever arrives. `arrived` is
      what the other senders got in before the last send; catch-up gets through exactly when that, what was
      queued and what is pending fit the queue together. */
  method CatchUpTopicWake(view: seq<Turn>, files: seq<Attachment>, persona: string, src: TopicSource, queue: WakeQueue)
    returns (completed: bool, ghost arrived: seq<Wake>)
    requires |queue.items| <= QUEUE_CAP
    modifies queue
    ensures completed <==> |old(queue.items)| + |Pending(view, files, persona, src)| + |arrived| <= QUEUE_CAP
    ensures Queued(old(queue.items), queue.items,
                   Fitting(|old(queue.items)|, |arrived|, Pending(view, files, persona, src)), arrived)
  {
    var want := TypeSet(src.types);
    var have := HaveIds(view);
    ghost var was := queue.items;
    ghost var all := Pending(view, files, persona, src);
    arrived := [];
    for i := 0 to |view|
      invariant Queued(was, queue.items, Turns(view, persona, src, i), arrived)
    {
      var c := view[i];
      if c.author != persona && c.kind in want && WakeOpID(c.opId, persona) !in have {
        ghost var sent, items := Turns(view, persona, src, i), queue.items;
        var ok;
        ghost var more;
        ok, more := queue.BlockEnqueue(WakeFor(src, c));
        QueuedStep(was, items, sent, arrived, more, WakeFor(src, c), ok);
        arrived := arrived + more;
        if !ok {
          TurnsPrefix(view, persona, src, i + 1, |view|);
          Overflow(|was|, |arrived|, sent, WakeFor(src, c), all);
          return false, arrived;
        }
      } else {
        assert Turns(view, persona, src, i + 1) == Turns(view, persona, src, i);
      }
    }
    completed := true;
    if ATTACHMENT_ADD in want {
      completed, arrived := ReplayFiles(view, files, have, persona, src, queue, was, arrived);
    } else {
      assert all == Turns(view, persona, src, |view|);
      ShuffledSize(queue.items[|was|..], all, arrived);
    }
  }

  method HaveIds(view: seq<Turn>) returns (have: set<OpId>)
    ensures have == Ids(view)
  {
    have := {};
    for i := 0 to |view|
      invariant have == Ids(view[..i])
    {
      have := have + {view[i].opId};
      assert view[..i + 1] == view[..i] + [view[i]];
    }
    assert view[..|view|] == view;
  }

  /** The attachment half of catchUpTopicWake: `was` is the queue before catch-up, `before` what arrived during
      the first half. */
  method ReplayFiles(view: seq<Turn>, files: seq<Attachment>, have: set<OpId>, persona: string, src: TopicSource,
                     queue: WakeQueue, ghost was: seq<Wake>, ghost before: seq<Wake>)
    returns (completed: bool, ghost arrived: seq<Wake>)
    requires have == Ids(view)
    requires Queued(was, queue.items, Turns(view, persona, src, |view|), before)
    modifies queue
    ensures var all := Turns(view, persona, src, |view|) + Files(view, files, persona, src, |files|);
            && (completed <==> |was| + |all| + |arrived| <= QUEUE_CAP)
            && Queued(was, queue.items, Fitting(|was|, |arrived|, all), arrived)
  {
    ghost var first := Turns(view, persona, src, |view|);
    ghost var all := first + Files(view, files, persona, src, |files|);
    arrived := before;
    assert first + [] == first;
    for i := 0 to |files|
      invariant Queued(was, queue.items, first + Files(view, files, persona, src, i), arrived)
    {
      var a := files[i];
      if a.author != persona && WakeOpID(a.opId, persona) !in have {
        ghost var sent, items := first + Files(view, files, persona, src, i), queue.items;
        var ok;
        ghost var more;
        ok, more := queue.BlockEnqueue(AttachmentWake(src, a));
        QueuedStep(was, items, sent, arrived, more, AttachmentWake(src, a), ok);
        arrived := arrived + more;
        assert first + Files(view, files, persona, src, i + 1) == sent + [AttachmentWake(src, a)];
        if !ok {
          FilesPrefix(view, files, persona, src, i + 1, |files|);
          Overflow(|was|, |arrived|, sent, AttachmentWake(src, a), all);
          return false, arrived;
        }
      } else {
        assert Files(view, files, persona, src, i + 1) == Files(view, files, persona, src, i);
      }
    }
    ShuffledSize(queue.items[|was|..], all, arrived);
    return true, arrived;
  }

  lemma Overflow(queued: nat, arrivals: nat, sent: seq<Wake>, w: Wake, all: seq<Wake>)
    requires sent + [w] <= all && queued + arrivals + |sent| == QUEUE_CAP
    ensures Fitting(queued, arrivals, all) == sent && queued + |all| + arrivals > QUEUE_CAP
  {
    assert all[..|sent|] == (sent + [w])[..|sent|] == sent;
  }

  /** What the contract of catch-up means for a caller: a backlog that with what was queued exceeds the
      queue never gets through; one that fits does exactly when the arrivals leave room; and with no
      arrival the queue is the old one and the backlog, in view order. */
  lemma CatchUpOutcome(was: seq<Wake>, items: seq<Wake>, all: seq<Wake>, arrived: seq<Wake>, completed: bool)
    requires |was| <= QUEUE_CAP
    requires completed <==> |was| + |all| + |arrived| <= QUEUE_CAP
    requires Queued(was, items, Fitting(|was|, |arrived|, all), arrived)
    ensures |was| + |all| > QUEUE_CAP ==> !completed
    ensures !completed ==> |items| == QUEUE_CAP
    ensures completed ==> |items| == |was| + |all| + |arrived|
    ensures arrived == [] ==> (completed <==> |was| + |all| <= QUEUE_CAP)
    ensures arrived == [] && completed ==> items == was + all
  {
    ShuffledSize(items[|was|..], Fitting(|was|, |arrived|, all), arrived);
    if arrived == [] { ShuffledAlone(items[|was|..], Fitting(|was|, 0, all)); }
  }

  lemma {:induction false} TurnsPrefix(view: seq<Turn>, persona: string, src: TopicSource, n: nat, m: nat)
    requires n <= m <= |view|
    ensures Turns(view, persona, src, n) <= Turns(view, persona, src, m)
  {
    if n < m { TurnsPrefix(view, persona, src, n, m - 1); }
  }

  lemma {:induction false} FilesPrefix(view: seq<Turn>, files: seq<Attachment>, persona: string, src: TopicSource,
      n: nat, m: nat)
    requires n <= m <= |files|
    ensures Files(view, files, persona, src, n) <= Files(view, files, persona, src, m)
  {
    if n < m { FilesPrefix(view, files, persona, src, n, m - 1); }
  }

  /** Completeness and order: a wanted op is replayed, at the place its rank among the wanted ops gives. */
  lemma ReplayedInOrder(view: seq<Turn>, files: seq<Attachment>, persona: string, src: TopicSource,
      i: nat)
    requires i < |view| && Wanted(view, persona, src, view[i])
    ensures |Turns(view, persona, src, i)| < |Pending(view, files, persona, src)|
    ensures Pending(view, files, persona, src)[|Turns(view, persona, src, i)|] == WakeFor(src, view[i])
  {
    TurnsPrefix(view, persona, src, i + 1, |view|);
  }

  /** Soundness: every wake replayed for a contribution is for a wanted one. */
  lemma {:induction false} OnlyWantedReplayed(view: seq<Turn>, persona: string, src: TopicSource, n: nat, w: Wake)
    requires n <= |view| && w in Turns(view, persona, src, n)
    ensures exists i :: 0 <= i < n && Wanted(view, persona, src, view[i]) && w == WakeFor(src, view[i])
  {
    if w in Turns(view, persona, src, n - 1) {
      OnlyWantedReplayed(view, persona, src, n - 1, w);
    }
  }

  /*** What is replayed, told of the view alone ***/

  predicate Declares(src: TopicSource, kind: string) {
    kind in src.types || (src.types == [] && kind == "turn.post")
  }

  /** A foreign op whose outcome is not on the view. */
  predicate Owed(view: seq<Turn>, persona: string, author: string, opId: OpId) {
    author != persona && forall t | t in view :: t.opId != WakeOpID(opId, persona)
  }

  /** The places, among the first n contributions, of those owed an answer. */
  function OwedTurns(view: seq<Turn>, persona: string, src: TopicSource, n: nat): set<int>
    requires n <= |view|
  {
    set k | 0 <= k < n && Declares(src, view[k].kind) && Owed(view, persona, view[k].author, view[k].opId)
  }

  function OwedFiles(view: seq<Turn>, files: seq<Attachment>, persona: string, n: nat): set<int>
    requires n <= |files|
  {
    set k | 0 <= k < n && Owed(view, persona, files[k].author, files[k].opId)
  }

  lemma WantedIsOwed(view: seq<Turn>, persona: string, src: TopicSource, t: Turn)
    ensures Wanted(view, persona, src, t) <==> Declares(src, t.kind) && Owed(view, persona, t.author, t.opId)
  {}

  lemma UnansweredIsOwed(view: seq<Turn>, persona: string, author: string, opId: OpId)
    ensures Unanswered(view, persona, author, opId) <==> Owed(view, persona, author, opId)
  {}

  lemma {:induction false} TurnsRanked(view: seq<Turn>, persona: string, src: TopicSource, n: nat)
    requires n <= |view|
    ensures |Turns(view, persona, src, n)| == |OwedTurns(view, persona, src, n)|
  {
    if n > 0 {
      TurnsRanked(view, persona, src, n - 1);
      WantedIsOwed(view, persona, src, view[n - 1]);
      assert OwedTurns(view, persona, src, n) == OwedTurns(view, persona, src, n - 1)
             + if Wanted(view, persona, src, view[n - 1]) then {n - 1} else {};
    }
  }

  lemma {:induction false} FilesRanked(view: seq<Turn>, files: seq<Attachment>, persona: string, src: TopicSource,
      n: nat)
    requires n <= |files|
    ensures |Files(view, files, persona, src, n)| == |OwedFiles(view, files, persona, n)|
  {
    if n > 0 {
      FilesRanked(view, files, persona, src, n - 1);
      UnansweredIsOwed(view, persona, files[n - 1].author, files[n - 1].opId);
      assert OwedFiles(view, files, persona, n) == OwedFiles(view, files, persona, n - 1)
             + if Owed(view, persona, files[n - 1].author, files[n - 1].opId) then {n - 1} else {};
    }
  }

  /** A contribution owed an answer is replayed at the place its rank gives, with its topic, id and author; its
      body is left to the view. */
  lemma TurnReplayed(view: seq<Turn>, files: seq<Attachment>, persona: string, src: TopicSource, i: nat)
    requires i < |view| && Declares(src, view[i].kind) && Owed(view, persona, view[i].author, view[i].opId)
    ensures var all, at := Pending(view, files, persona, src), |OwedTurns(view, persona, src, i)|;
            && at < |all| && all[at].topic == src.path && all[at].opId == view[i].opId
            && all[at].author == view[i].author && all[at].kind == WakeKind.TopicWake && all[at].body == ""
  {
    WantedIsOwed(view, persona, src, view[i]);
    TurnsRanked(view, persona, src, i);
    ReplayedInOrder(view, files, persona, src, i);
  }

  /** An attachment owed an answer is replayed after the contributions, at the place its rank gives, when
      attachment.add is declared. */
  lemma FileReplayed(view: seq<Turn>, files: seq<Attachment>, persona: string, src: TopicSource, i: nat)
    requires i < |files| && Declares(src, "attachment.add") && Owed(view, persona, files[i].author, files[i].opId)
    ensures var all := Pending(view, files, persona, src);
            var at := |OwedTurns(view, persona, src, |view|)| + |OwedFiles(view, files, persona, i)|;
            && at < |all| && all[at].topic == src.path && all[at].opId == files[i].opId
            && all[at].author == files[i].author && all[at].kind == WakeKind.TopicWake
            && all[at].body == "attachment \"" + files[i].name + "\" added"
  {
    UnansweredIsOwed(view, persona, files[i].author, files[i].opId);
    TurnsRanked(view, persona, src, |view|);
    FilesRanked(view, files, persona, src, i);
    FilesPrefix(view, files, persona, src, i + 1, |files|);
    var before := Files(view, files, persona, src, i);
    assert Files(view, files, persona, src, i + 1) == before + [AttachmentWake(src, files[i])];
  }

  /** And there is nothing else: as many wakes as contributions owed an answer, and attachments owed one if they
      are declared, each at a place of its own. */
  lemma NothingElseReplayed(view: seq<Turn>, files: seq<Attachment>, persona: string, src: TopicSource, at: nat)
    requires at < |Pending(view, files, persona, src)|
    ensures |Pending(view, files, persona, src)| == |OwedTurns(view, persona, src, |view|)|
              + if Declares(src, "attachment.add") then |OwedFiles(view, files, persona, |files|)| else 0
    ensures var w := Pending(view, files, persona, src)[at];
            || (exists i :: 0 <= i < |view| && w.opId == view[i].opId && Declares(src, view[i].kind)
                            && Owed(view, persona, view[i].author, view[i].opId))
            || (Declares(src, "attachment.add")
                && exists i :: 0 <= i < |files| && w.opId == files[i].opId
                               && Owed(view, persona, files[i].author, files[i].opId))
  {
    TurnsRanked(view, persona, src, |view|);
    FilesRanked(view, files, persona, src, |files|);
    var turns, w := Turns(view, persona, src, |view|), Pending(view, files, persona, src)[at];
    if at < |turns| {
      assert w in turns;
      OnlyWantedReplayed(view, persona, src, |view|, w);
      var i :| 0 <= i < |view| && Wanted(view, persona, src, view[i]) && w == WakeFor(src, view[i]);
      WantedIsOwed(view, persona, src, view[i]);
    } else {
      assert w in Files(view, files, persona, src, |files|);
      var i := OnlyOwedFiles(view, files, persona, src, |files|, w);
    }
  }

  lemma {:induction false} OnlyOwedFiles(view: seq<Turn>, files: seq<Attachment>, persona: string, src: TopicSource,
      n: nat, w: Wake) returns (i: nat)
    requires n <= |files| && w in Files(view, files, persona, src, n)
    ensures i < n && w == AttachmentWake(src, files[i]) && Owed(view, persona, files[i].author, files[i].opId)
  {
    if w in Files(view, files, persona, src, n - 1) {
      i := OnlyOwedFiles(view, files, persona, src, n - 1, w);
    } else {
      i := n - 1;
    }
  }

  /** A backlog the queue cannot hold: the whole-history replay the source promises is not always
      carried out. With n unanswered turns of one author on the topic and an empty queue, catch-up
      gets through exactly when n is at most 64. */
  function Backlog(n: nat): seq<Turn> {
    if n == 0 then [] else Backlog(n - 1) + [Turn(Fresh(n), "owner", TURN_POST, "", n)]
  }

  lemma {:induction false} BacklogShape(n: nat)
    ensures |Backlog(n)| == n
    ensures forall t | t in Backlog(n) :: t.opId.Fresh? && t.author == "owner" && t.kind == TURN_POST
  {
    if n > 0 { BacklogShape(n - 1); }
  }

  lemma {:induction false} AllWanted(view: seq<Turn>, persona: string, src: TopicSource, n: nat)
    requires n <= |view| && forall t | t in view :: Wanted(view, persona, src, t)
    ensures |Turns(view, persona, src, n)| == n
  {
    if n > 0 { AllWanted(view, persona, src, n - 1); }
  }

  lemma HistoryOutgrowsQueue(n: nat)
    ensures var all := Pending(Backlog(n), [], "clerk", TopicSource("t", []));
            |all| == n && (Fitting(0, 0, all) == all <==> n <= QUEUE_CAP)
  {
    var src := TopicSource("t", []);
    BacklogShape(n);
    assert forall t | t in Backlog(n) :: Wanted(Backlog(n), "clerk", src, t);
    AllWanted(Backlog(n), "clerk", src, n);
  }
}
