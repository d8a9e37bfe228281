# soulstream-workloads: a verified model

soulstream-workloads runs agents and tools on a shared append-only record. Two of its protocols share one
idea: the record is the only position.

* **The wake engine** (`wrap/`). Something wakes an agent, a harness run answers it, and the answer is posted
  under an id derived from the trigger and the persona, so that a trigger gets at most one outcome whatever
  crashes, restarts or is delivered twice. A wake budget bounds what is admitted: how many provable hops an
  outcome may sit from its root, and how many turns a persona may post in a sliding window.
* **The placement protocol** (`fleet/`, `dispatcher/`). Nodes race to claim placements, read the log back to see
  who won, serve what they own, answer liveness probes, sweep silent peers, hand back what they cannot serve,
  and drain.

Around them sit placeholder substitution, the mapping from a declaration to an engine, the subjects a
credential may touch, and the artifact reference codec.

## How the model is built

| module | what it models |
|---|---|
| `Correlate` | turns, outcome ids as a free datatype, snapshot correlation, the ancestry walk, the budget decision |
| `WakeIdentity` | the string the outcome id really hashes, and why the free datatype loses nothing |
| `WakeProtocol` | one wake: an imperative `HandleWake` over an environment that answers every call arbitrarily, proved to be a run of an explicit automaton; the wake contract over all runs |
| `WakeTrace` | the same traces read call by call, without the automaton: what was asked, what a post carries, what led to each result |
| `Engines` | any number of engines on one record, every interleaving of calls, foreign posts, redeliveries, crashes |
| `Cascade`, `Window`, `ExactlyOnce` | the three global results over those runs |
| `CatchUp` | what a topic wake replays, and the 64-slot queue it replays into |
| `WorkItem` | the placement log: status fold, timelines, ownership |
| `Ownership` | any number of nodes on one placement topic, every interleaving of scans, claims, read-backs, starts and crashes |
| `Placement` | `fleet.Node` and the dispatcher as classes whose methods are the source's locked sections and realm calls |
| `DispatcherRuns` | one dispatcher's goroutines interleaved at those sections |
| `Fill` | placeholder substitution over an unordered map |
| `Names`, `Artifact`, `Scope`, `Declaration`, `Declared` | the declaration side: grammars, artifact codec, subject language, validation, mapping and defaults |

Methods follow the source statement by statement; each is proved against a function of its inputs or its old
state, and the properties are proved of those functions and over whole runs.

Assumptions about what lies outside the repository, all stated in the model: the stream stamps ops with a clock
that does not run backwards, drops an id it stored within its duplicate window, and a post that it stores follows
the engine's own last read within that window; fresh op ids never repeat; UUIDv5 (section 5.5 of RFC 9562) does not
collide; the work-item fold obeys the rules of `fleet/fleet.go` and `dispatcher/dispatcher.go` (first claim on an open
item is live, later ones are void, an abandon by anyone reopens a claimed item, done is terminal and closes an open
or a claimed item); an item has an owner exactly while it is claimed; a name is non-empty and holds none of
`. * > / :` or a blank.

## Where the code and its description part

Each of these is a theorem with its exact condition.

* **A depth refusal is a loss, not a delay.** `wrap/wake.go` says exhaustion is a delay and never a loss. That holds
  for the window part alone: `Correlate.RefusalIsADelayIffNotDepth`, `Correlate.DepthRefusalIsPermanent`.
* **Catch-up cannot replay the whole history.** It sends on a 64-slot queue from the goroutine that is the queue's
  only receiver, while live senders fill the same queue. It gets through exactly when what is queued, what is pending
  and what arrives meanwhile fit: `CatchUp.CatchUpTopicWake`, `CatchUp.CatchUpOutcome`, `CatchUp.HistoryOutgrowsQueue`.
* **A second drain proves less than the first.** It finds nothing to wait for and returns nil while engines still
  run; once the first drain has returned nil, none ever runs again: `DispatcherRuns.DrainedMeansStopped`,
  `DispatcherRuns.StoppedOnceFirstReturned`, `DispatcherRuns.SecondDrainProvesLess`.
* **A hand-back can give up another node's claim.** It abandons whatever claim the item has where it lands, and a
  scan's view may be old: `WorkItem.AbandonGivesUp`, `Ownership.HandBackGivesUp`, with the failing input
  `Ownership.StaleHandBack`.
* **A declared budget loses to a base that opted out.** A non-zero block over an unbudgeted base is never enforced:
  `Declared.DeclaredKnobsAreEnforced`.
* **Substitution depends on map order when a value quotes a placeholder**: `Fill.OrderMattersIffMentioned`, with the
  failing input `Fill.QuotedPlaceholder`.
* **A post the harness makes for itself leaves no outcome id**, so the trigger is answered again on redelivery or
  restart, although the wrapper promises one outcome per wake. A trigger's outcome is missing exactly when every wake
  that answered it did so by snapshot correlation, and a catch-up replays exactly those and the unanswered:
  `ExactlyOnce.OutcomeIffAttested`, `ExactlyOnce.RestartReplaysTheUnattested`, with the failing input
  `ExactlyOnce.SelfPostAnswersTwice`.

## Model

| member | source | states |
|---|---|---|
| `Correlate.PostedDuringRun` | wrap/correlate.go:48-59 | answers with the first own turn.post the earlier snapshot does not hold, and with none exactly when there is no such turn |
| `Correlate.FirstNewOwn` | wrap/correlate.go:43-59 | none exactly when no own turn is new; otherwise the id of a new own turn of the later view |
| `Correlate.ContainsOp` | wrap/correlate.go:64-71 | true exactly when the id is among the view's ids |
| `Correlate.FindAnchor` | wrap/wake.go:110-116 | the first turn carrying the trigger's id, or none |
| `Correlate.AnchorBody` | wrap/correlate.go:75-82 | the anchoring op's body, empty when the view no longer holds it |
| `Correlate.ParentOf` | wrap/correlate.go:91-104 | the number of candidates that bind, and the last of them |
| `Correlate.ParentsAre` | wrap/correlate.go:84-90 | the candidates are exactly the view's ops that provably triggered this one |
| `Correlate.ParentsCounted` | wrap/correlate.go:84-90 | each candidate is counted as often as the view holds it |
| `Correlate.ParentsEnd` | wrap/correlate.go:99-101 | the candidate kept is the last op of the view that binds |
| `Correlate.ChainToRoot` | wrap/correlate.go:106-125 | the bounded walk is the unbounded walk: its bound never truncates, for any view and any op, in the view or not; the chain is at most one longer than the view |
| `Correlate.ChainFitsView` | wrap/correlate.go:113 | pigeonhole: a chain has no more hops than the view has ops of smaller depth |
| `Correlate.ChainIsProvable` | wrap/correlate.go:106-109 | every link of the walk binds and its end has no provable parent |
| `Correlate.ChainIsTheOnlyOne` | wrap/correlate.go:86-90 | with unique op ids the walk is the only provable chain and reports no ambiguity |
| `Correlate.AmbiguitiesCounted` | wrap/correlate.go:118-120 | the reported ambiguity is the number of steps of the walk with more than one candidate |
| `Correlate.ChainIdsDistinct` | wrap/correlate.go:106-125 | ids along a walk are pairwise distinct, whatever the view holds |
| `Correlate.ProvableHops` | wrap/correlate.go:129-132 | the links of the unbounded walk |
| `Correlate.ChainStable` | wrap/correlate.go:110-125 | appending ops none of which is an ancestor leaves a chain as it was |
| `Correlate.HopsNeverShrink` | wrap/correlate.go:127-132 | with unique ids, hop counts never go down as the record grows |
| `Correlate.BudgetDecision` | wrap/correlate.go:140-159 | refuses on depth first, then on the window, with the numbers of the reason; a part that is zero never refuses |
| `Correlate.BudgetVerdict` | wrap/correlate.go:134-159 | the verdict in full: refused on depth exactly when the outcome would sit beyond a bound that is set, else on the window exactly when as many of the persona's turn.posts as the bound lie after the cut, else admitted; with the numbers |
| `Correlate.WindowCounted` | wrap/correlate.go:147-153 | the window counts the places of the persona's own turn.posts stamped after the cut, and nothing else |
| `Correlate.DepthRefusalIsPermanent` | wrap/correlate.go:141-145 | a depth refusal stands for every later clock and every extension of the record |
| `Correlate.RefusalIsADelayIffNotDepth` | wrap/wake.go:102-109 | a refused wake is admitted at some later time over the same view exactly when depth did not refuse it |
| `WakeIdentity.HashedIsInjective` | wrap/correlate.go:20-30 | the hashed string determines trigger and persona when personas hold no slash, whatever the trigger holds |
| `WakeIdentity.ConfusableIffSlashed` | wrap/correlate.go:29 | some pair of triggers confuses a persona with a well-named other exactly when it holds a slash |
| `WakeIdentity.FreeIdsAreFaithful` | wrap/correlate.go:20-30 | written ids are equal exactly when the model's ids are, to any depth of nesting |
| `WakeProtocol.HandleWake` | wrap/wake.go:77-213 | over any environment: every call, its order and arguments, and the result are those of a completed run of the automaton |
| `WakeProtocol.Admission` | wrap/wake.go:83-121 | self-skip, then outcome existence, then budget; what it stops with or the snapshot it admits with |
| `WakeProtocol.Discharge` | wrap/wake.go:150-212 | the attempt loop: from the admitted snapshot to the result the automaton reaches |
| `WakeProtocol.RunAndRead` | wrap/wake.go:165-181 | one run and one read lead where comparing that read with the last snapshot says |
| `WakeTrace.EveryCallSays` | wrap/wake.go:83-212 | of every call of every wake, from the calls alone: run n stands where the header and n-1 failed runs put it and is asked about the trigger's own text, or what the wake carries when the view has none, with the instructions read for it; a reply carries the text of the successful run just before it and taps nobody; a self-report carries the detail of the last of Retries failed runs and taps exactly the asker |
| `WakeTrace.WakeIsItsTrace` | wrap/wake.go:77-213 | each result comes with the whole trace that leads to it: what was read, decided, asked, run, paused and posted, in order, and why it stopped there |
| `WakeProtocol.CheckedView` | wrap/correlate.go:43-59 | comparing each snapshot with the last one decides whether an own turn is new since the first read |
| `WakeProtocol.WakeContract` | wrap/wake.go:69-76 | at most one post, only under the wake's id; at most Retries runs; skipped, answered and refused wakes do nothing; an answer is either its own post or an own turn absent from the first read, never both; a self-report follows exactly Retries failed runs with no own turn seen |
| `WakeProtocol.ReplayInvokesNothing` | wrap/wake.go:90-99 | a wake reads as already answered exactly when the first view holds its outcome, and then reads once and does nothing else |
| `Engines.NextSnapshotIsClear` | wrap/wake.go:163-199 | in any interleaving, the snapshot an engine holds never contains its own outcome id |
| `Engines.StoredPostIsNew` | wrap/wake.go:183-211 | a post the stream stores is never a second copy |
| `Engines.StepKeeps` | wrap/wake.go:77-213 | every step of every engine, poster and crash keeps unique ids, ordered stamps, well-formed outcomes and clear snapshots |
| `Engines.AtMostOneOutcome` | wrap/correlate.go:20-27 | in every run of any number of engines of one persona the record holds at most one op under an outcome id |
| `Cascade.HopsSettle` | wrap/correlate.go:127-132 | on a reachable record the hop count of an op already there does not change as others post |
| `Cascade.ReachableFits` | wrap/wake.go:83-121 | in every run of budgeted wrappers every outcome sits within the depth bound and no persona answers itself |
| `Cascade.SitsInTree` | wrap/correlate.go:106-109 | every op sits in the tree of its root, at the level of its hop count, on a path on which no persona follows itself |
| `Cascade.CascadeSizeIs` | wrap/config.go:107-118 | the bound in closed form: (A-2) times it is A((A-1)^D - 1); 2D for two agents, at most one for a single agent |
| `Cascade.CascadeIsBounded` | wrap/config.go:107-118 | for A personas and depth D every op sits at most D hops out and every root has at most the sum of A(A-1)^(k-1), k = 1..D, descendants |
| `Cascade.RecordIsBounded` | wrap/config.go:107-118 | all cascades together are at most that many times the number of roots |
| `Window.ReachablePaced` | wrap/wake.go:117-191 | in every disciplined run each own turn closes a window within the bound, and a running wake still has room for its post |
| `Window.WindowIsBounded` | wrap/correlate.go:146-157 | every interval as long as the window, of every run, holds at most K of the persona's turns, though the check runs only at admission and a harness may post for itself once a wake, up to the read after its run |
| `ExactlyOnce.OutcomeIffAttested` | wrap/wake.go:174-211 | in every run, crashes and self-posts included: a trigger's outcome id is on the record exactly when some wake of it answered other than by snapshot correlation, or its post landed; and then one own turn carries it |
| `ExactlyOnce.RestartReplaysTheUnattested` | wrap/sources.go:81-108 | after every run, a catch-up replays a contribution exactly when it is foreign, of a declared type, and was not answered or answered only by snapshot correlation |
| `ExactlyOnce.RestartReplaysFiles` | wrap/sources.go:109-120 | after every run, a declared foreign attachment is owed a replay exactly when its trigger is unattested, and is then among the replayed |
| `ExactlyOnce.ExactlyOncePerTrigger` | wrap/wake.go:77-213 | one instance at a time, dying and restarting at any moment, any realm call failing: ids are unique, every own turn is a self-post or the outcome of a wake, a wake that discharged nothing was refused, parked by a failed call or the persona's own, correlation means a self-post is on the record, and without self-posts a trigger is discharged exactly when its one outcome is on the record |
| `ExactlyOnce.SelfPostAnswersTwice` | wrap/wake.go:178-180 | the failing input: a harness that posts for itself leaves no outcome id, and the redelivered mention is answered a second time |
| `CatchUp.TypeSet` | wrap/sources.go:32-41 | the declared types, or turn.post alone when none is declared |
| `CatchUp.CatchUpTopicWake` | wrap/sources.go:85-122 | sends the pending wakes in view order, interleaved with whatever the live senders get in meanwhile; gets through exactly when queued, pending and those arrivals fit 64 slots together |
| `CatchUp.WakeQueue.TryEnqueue` | wrap/wrap.go:90-98 | enqueues exactly when there is room, and drops otherwise |
| `CatchUp.WakeQueue.Arrivals` | wrap/wrap.go:111-158 | live senders append while there is room and are dropped when there is none |
| `CatchUp.WakeQueue.BlockEnqueue` | wrap/wrap.go:99-106 | from the receiving goroutine a send succeeds exactly when what arrived meanwhile left room |
| `CatchUp.ReplayFiles` | wrap/sources.go:109-120 | the attachment half, continuing the first with the same exact condition |
| `CatchUp.CatchUpOutcome` | wrap/wrap.go:88-106 | a backlog that with what was queued exceeds 64 never gets through, a completed catch-up has queued every pending wake, and without arrivals it completes exactly when queued and pending fit and leaves them in order |
| `CatchUp.OnTopicOp` | wrap/sources.go:47-79 | the live half: exactly the foreign ops of a declared type are sent, when there is room, with topic, id, author and the attachment's sentence as body |
| `CatchUp.TurnReplayed` | wrap/sources.go:97-108 | a declared foreign contribution without an outcome on the view is replayed at the place its rank gives, field by field |
| `CatchUp.FileReplayed` | wrap/sources.go:109-120 | a declared foreign attachment without an outcome on the view is replayed after the contributions, at the place its rank gives, field by field |
| `CatchUp.NothingElseReplayed` | wrap/sources.go:97-120 | as many wakes as ops owed an answer, each for one of them; attachments only when declared |
| `CatchUp.HistoryOutgrowsQueue` | wrap/sources.go:81-84 | a history of n unanswered turns is replayed in full exactly when n is at most 64 |
| `Ownership.StepKeeps` | dispatcher/dispatcher.go:338-371 | whatever nodes, other writers and crashes do, every start was made from a view of the log that names its node owner |
| `Ownership.TwoServersNeedAnAbandon` | dispatcher/dispatcher.go:338-371 | in every run of any number of nodes, two different ones never start on one item, by a won race or by resume, without a live abandon between the views they started from |
| `Ownership.OneServerUntilAbandoned` | fleet/fleet.go:170-200 | while an item has no live abandon only one node ever starts serving it |
| `WorkItem.FoldRules` | fleet/fleet.go:170-172 | what one more op does to the item it names and to no other: the first claim on an open item takes it and later ones are void, an abandon by anybody reopens a claimed item, done is terminal |
| `WorkItem.AbsentIff` | fleet/fleet.go:62 | an item is listed and has a status exactly from its first opening on |
| `WorkItem.FirstOpeningDeclares` | fleet/fleet.go:65-81 | what is placed is what the first opening declares, whatever comes later |
| `WorkItem.ClosedIsTerminal` | fleet/fleet.go:217-228 | a closed item stays closed |
| `WorkItem.OwnershipChangesOnTheRecord` | fleet/fleet.go:170-200 | between two views naming different owners lie a live abandon and, after it, the live claim of the second owner |
| `WorkItem.AbandonGivesUp` | fleet/fleet.go:239-258 | an abandon published by a view gives up the claim that view showed exactly when nothing live happened to the item since; it is live exactly when the item is claimed where it lands, and another owner's claim is given up only after a live abandon and claim the view did not show |
| `Ownership.HandBackGivesUp` | dispatcher/dispatcher.go:451-458 | the same of a hand-back in any state a node can make it in |
| `Ownership.StaleHandBack` | dispatcher/dispatcher.go:320-323 | the failing input: a hand-back on a stale view reopens a placement another node has won |
| `WorkItem.LiveTimelineLanguage` | fleet/fleet.go:297-307 | the live events of an item alternate claim and abandon, closed by at most one done, and their last word is the item's status |
| `WorkItem.LastClaimAt` | fleet/fleet.go:299-307 | the time of the last claim that is not void |
| `WorkItem.LastClaimIsTheTenure` | fleet/fleet.go:297-307 | whenever the fold says claimed, the backward scan finds the claim that installed the current owner, who has owned the item ever since |
| `WorkItem.PlanIsTheSilent` | fleet/fleet.go:240-254 | what a sweep abandons is exactly what its view nominates and no probe vetoes |
| `WorkItem.SweepMeasuresTenure` | fleet/fleet.go:241-254 | an item is swept exactly when it is a placement, claimed by a peer for at least the bound, and its owner is silent |
| `Placement.Node.Probe` | fleet/fleet.go:129-138 | alive for exactly the placements this node runs |
| `Placement.Node.TryPlace` | fleet/fleet.go:173-215 | what it did, in order: nothing, a claim, or a claim and a launch; it launches exactly when the read-back names this node, holds the placement exactly when the launch succeeded, and abandons after a failed one; on a quiet, reliable topic an open placement is launched, and stays claimed or is open again |
| `Placement.Node.Release` | fleet/fleet.go:219-228 | stops answering first; done is published exactly when the workload stopped |
| `Placement.Node.IsSilent` | fleet/fleet.go:241-254 | the test of one item: nominated by the projection and not vetoed by its owner |
| `Placement.Node.Sweep` | fleet/fleet.go:234-261 | publishes an abandon for each silent item of its view, in view order, up to the first that fails, and does nothing else; on a quiet, reliable topic exactly those reopen |
| `Placement.Dispatcher.AcceptingWork` | dispatcher/dispatcher.go:490-494 | whether the dispatcher still takes work |
| `Placement.Dispatcher.AnswerProbe` | dispatcher/dispatcher.go:479-488 | alive for exactly what is served now |
| `Placement.Dispatcher.PersonaBusy` | dispatcher/dispatcher.go:509-513 | true exactly when some served placement has the persona |
| `Placement.Dispatcher.SkipRace` | dispatcher/dispatcher.go:500-515 | served, backed off or persona busy, and nothing else |
| `Placement.Dispatcher.SlotFree` | dispatcher/dispatcher.go:520-538 | free exactly when taking and not skipped; loud exactly for a duplicate persona |
| `Placement.Dispatcher.Take` | dispatcher/dispatcher.go:540-551 | succeeds exactly when taking and the item is not served, and adds that one slot |
| `Placement.Dispatcher.Release` | dispatcher/dispatcher.go:553-558 | the slot is gone and the item backed off, nothing else changes |
| `Placement.Dispatcher.BackOff` | dispatcher/dispatcher.go:560-564 | the item is backed off, nothing else changes |
| `Placement.Dispatcher.StopTaking` | dispatcher/dispatcher.go:239-246 | the locked section of Drain: collects every served engine, serves nothing, takes nothing |
| `Placement.Dispatcher.HandBack` | dispatcher/dispatcher.go:451-458 | backs off and publishes one abandon |
| `Placement.Dispatcher.StartServe` | dispatcher/dispatcher.go:386-445 | started exactly when the slot is free and the setup succeeded; starting never writes the log; a failed setup backs off and abandons |
| `Placement.Dispatcher.Race` | dispatcher/dispatcher.go:354-372 | what it did, in order: nothing when it skips, else a claim; a setup only after a read-back that names this node owner; engine or hand-back by how the setup went |
| `Placement.Dispatcher.Visit` | dispatcher/dispatcher.go:333-346 | one item by the scan's view: acts only on an agent with a wake that is open or its own, starts it only on that view or a newer one, touches that item alone and leaves nothing to do about it |
| `Placement.Dispatcher.Scan` | dispatcher/dispatcher.go:324-347 | everything it claims, sets up or abandons is an agent with at least one wake, open or its own by its view; what it starts a view taken during the scan named it owner of, under the declared persona; on a quiet, reliable topic every such item whose slot is free at its turn ends up served or handed back, nothing is left to do, and with nothing to do it does nothing |
| `Placement.Dispatcher.Rescan` | dispatcher/dispatcher.go:320-347 | a second scan before any backoff expires publishes nothing and starts nothing |
| `DispatcherRuns.StepKeeps` | dispatcher/dispatcher.go:386-443 | every step of scan, engines and drains keeps one engine per persona, the checked slot and the ledger of engines |
| `DispatcherRuns.OneEnginePerPersona` | dispatcher/dispatcher.go:517-551 | in every interleaving no two served placements share a persona, though take rechecks only the item |
| `DispatcherRuns.EnginesAreConserved` | dispatcher/dispatcher.go:238-263 | every engine ever taken is in exactly one place: served, released by itself, or on the first drain's wait list |
| `DispatcherRuns.DrainedMeansStopped` | dispatcher/dispatcher.go:228-263 | after a drain returns nil no take succeeds, and no engine runs exactly when everything the first drain collected has ended; for the first drain that always holds |
| `DispatcherRuns.StoppedOnceFirstReturned` | dispatcher/dispatcher.go:228-263 | once the first drain has returned nil no engine runs and none is ever taken again, whatever later drains return |
| `DispatcherRuns.SecondDrainProvesLess` | dispatcher/dispatcher.go:228-263 | a run in which a second drain returns nil while an engine is running |
| `DispatcherRuns.NoSpin` | dispatcher/dispatcher.go:447-458 | hand-backs of one placement are a backoff apart, so n of them take at least n-1 backoffs |
| `Fill.Fill` | wrap/harness.go:190-195 | the result is ReplaceAll over some order of exactly the map's keys |
| `Fill.ReplaceIsSplice` | wrap/harness.go:192 | one ReplaceAll over a rendered template is one token substitution, whatever the value renders |
| `Fill.OrderDoesNotMatter` | wrap/harness.go:189-195 | every order gives simultaneous substitution when no key the template asks for has a value that mentions another key with something to say |
| `Fill.OrderMattersIffMentioned` | wrap/wake.go:140-148 | for any template and any number of keys, all orders of the map give one prompt exactly when no key the template asks for has a value that mentions another key with something to say; set aside are only pairs that mention each other and each hold their own key twice |
| `Fill.OrdersTellApart` | wrap/harness.go:190-195 | one such mention is enough: it names two orders of all the keys that give different prompts |
| `Fill.QuotedPlaceholder` | wrap/wake.go:140-148 | the failing input: over the seven keys of a wake, a body that quotes the author placeholder gives two different prompts |
| `Fill.MutualMentionMayAgree` | wrap/harness.go:190-195 | two values that mention each other and hold their own key exactly twice can give one prompt in both orders, so what is set aside cannot be made smaller by those counts |
| `Names.JoinUndoesSplit` | declaration/declaration.go:544 | joining what was split gives the path back |
| `Names.ValidateTopicPath` | declaration/declaration.go:540-551 | accepts exactly the non-empty paths all of whose segments are names |
| `Names.PathHolds` | declaration/declaration.go:533-539 | a valid path holds no wildcard, slash, colon or blank |
| `Artifact.PrintUndoesParse` | declaration/declaration.go:612-625 | printing a parsed record reference gives the input back character for character |
| `Artifact.ParseUndoesPrint` | declaration/declaration.go:612-625 | parsing a printed valid reference returns it |
| `Artifact.RecordFormIsExactlyThePrinted` | declaration/declaration.go:607-625 | the accepted record references are exactly the printed ones, each with one reading |
| `Artifact.ValidIffReadable` | declaration/declaration.go:567-605 | an artifact is valid exactly when it reads as a reference other than a file with no path; the reference has the scheme the text announces, and a file reference is exactly a file URI's path |
| `Declaration.ValidEntriesAre` | declaration/declaration.go:357-429 | the valid entries: of each kind exactly those that set the kind's own fields, well-formed, and no field of another kind |
| `Declaration.ValidListsAre` | declaration/declaration.go:319-355 | the valid lists: valid entries, at most one mention, no topic path, schedule name or subject twice |
| `Declaration.ValidBudgetsAre` | declaration/declaration.go:513-532 | the valid blocks: no negative number, and a positive duration with every positive count |
| `Declaration.ValidateWake` | declaration/declaration.go:322-355 | accepts exactly the lists of valid entries no two of which would collapse into one source |
| `Declaration.RefusedExactlyFor` | declaration/declaration.go:206-274 | a declaration is refused exactly for one of the listed faults of role, lifecycle, persona, topic, artifact, agent-only blocks, instructions, capabilities, wake, budget or model |
| `Declaration.Validate` | declaration/declaration.go:206-274 | accepts exactly the valid declarations |
| `Declaration.ValidArtifactIsReadable` | declaration/declaration.go:597-606 | a valid declaration's artifact reads back; only an agent the engine serves may have none |
| `Declared.ValidateSet` | wrap/config.go:84-105 | accepts exactly the sets the engine can run |
| `Declared.RunnableIs` | wrap/declared.go:28-66 | what can run, spelled out: a valid agent declaration for the persona fixed, if any, with a wake, replayable types, and a client for instructions |
| `Declared.DeclaredConfig` | wrap/declared.go:28-101 | succeeds exactly for a valid, agent, persona-matching declaration with wakes of replayable types; three of its refusals are never met; the result is the declaration's mapping over the base |
| `Declared.InstructionsReachThePrompt` | wrap/declared.go:90-98 | a non-empty prompt of an instructed agent holds the placeholder, and nothing of the base prompt is lost |
| `Declared.MappingKeepsTheTemplateUsable` | wrap/declared.go:90-98 | the mapped template passes the engine's template validation exactly when the base template does |
| `Declared.MappingSays` | wrap/declared.go:36-70 | persona and home topic are the declaration's, and every entry is a source of its kind at the place its rank gives, with its own path, types, name, pattern, parsed ttl or subject |
| `Declared.EveryEntryIsOneSource` | wrap/declared.go:44-66 | every declared entry is exactly one source of the engine |
| `Declared.Wrapper.ApplyDefaults` | wrap/config.go:196-212 | field by field: zero retries become 2, a zero run timeout 150 seconds, an untouched budget 4 hops and 8 turns in 10 minutes unless opted out; everything else stays |
| `Declared.Wrapper.Prepare` | wrap/wrap.go:73-82 | refuses exactly an unusable template, a meaningless budget or an unrunnable set, and then changes nothing |
| `Declared.DeclaredKnobsAreEnforced` | wrap/declared.go:72-88 | the knobs pass the engine's own budget validation, an absent block means 4 hops and 8 turns in 10 minutes, and every unanswered wake is refused exactly when it breaks a declared part, unless the base opted out and the block is not all zero |
| `Scope.PermissionSet` | minter/scope.go:83-108 | the lists the language results are about |
| `Scope.AgentPublishes` | minter/scope.go:68-108 | exactly what an agent may publish under NATS matching |
| `Scope.ToolPublishes` | minter/scope.go:74-89 | a tool publishes on inboxes and nowhere else |
| `Scope.CapabilitiesOnlyNarrow` | minter/scope.go:92-101 | declaring capabilities, whatever they hold, adds no subject and changes nothing outside the tool namespace |
| `Scope.ServiceIffDeclared` | minter/scope.go:97-101 | a service subject is publishable exactly when its name is a declared tool |
| `Scope.TopicIsolation` | minter/scope.go:90-106 | an agent publishes on and follows exactly its own topic |
| `Scope.MentionIsolation` | minter/scope.go:106 | an agent receives exactly its own mentions |
| `Scope.ToolIsolation` | minter/scope.go:84-89 | a tool serves exactly its own subject |
| `Scope.ToolFollows` | minter/scope.go:78-89 | everything a tool may subscribe to: its own service subject and inboxes, and nothing else |
| `Scope.AgentFollows` | minter/scope.go:104-107 | everything an agent may subscribe to: its topic, topic announcements, its own mentions and inboxes, and nothing else |
| `Scope.WildcardToolOpensAll` | minter/scope.go:110-115 | without the name grammar a tool named `*` would open every service |
| `Scope.ValidateCapabilities` | declaration/declaration.go:302-317 | accepts exactly a named role with distinct named tools, and says which part it refused |
| `Scope.MintTags` | minter/scope.go:116-137 | the tags read back to the same persona, topic and tools in order; refused exactly when role, capabilities, persona or topic are not valid |

## Left out

- Process, pod and microVM control (`backend/`) and the process half of `RunHarness`: a run is an arbitrary result.
- The runner (`runner/`): a launch succeeds or fails arbitrarily inside `TryPlace`.
- JWT and nkey signing (`minter/minter.go`, `minter/scoped.go`): only the scope derivation is modelled.
- JetStream schedules, tick consumers, subject subscriptions and reconnects: a schedule or subject wake is a delivery whose trigger is no op of the topic.
- The mention inbox half of catch-up and its depth limit: it feeds the same queue with the same condition.
- soulstream-core (materialise, the work-item fold, idempotent posting): not shown in the repository, taken as the stated assumptions.
- Parsing of JSON, URIs, durations, schedule patterns, op types and subscription subjects: parameters of `Declaration.Grammar`, so the results hold for every such grammar; the name grammar is any that keeps separators and wildcards out.
- Placement of one declaration on its wire form (`submissionMarker` and JSON): a work item either carries a declaration or does not.
- `start` of the dispatcher, its cadence defaults, and a second start of one process: a run is one process life.
- Liveness, fairness of races, and exclusion of running engines across nodes: not promised by the code; a reclaimed node's engine may go on running, and the guarantee is the outcome's.
- WakeProtocol.HandleWake: the prompt string, run directory and timeout are the values they are made from; the text of a self-report is its detail and number of attempts.
- Engines.AtMostOneOutcome: takes the stream's duplicate window as given, and that a stored post follows its engine's last read within that window; the source relies on both.
- Rolled-up topics: a successful read returns the whole record, so the cascade bound is for a topic that is not rolled up. `Correlate` covers triggers absent from the view.
- ExactlyOnce.ExactlyOncePerTrigger: needs one instance of the persona at a time, because a turn of another instance is taken for the harness's own. `ExactlyOnce.OutcomeIffAttested` does not.
- CatchUp.WakeQueue.BlockEnqueue: a send that could only end by cancellation is a refusal; the wait itself is not modelled.
- CatchUp.CatchUpTopicWake: the quoting of an attachment name in the wake body is plain.
- Placement.Node.Sweep: clock readings and probe answers are one per item, given beforehand; peers writing between probes are covered, their effect on a probe is not.
- Placement.Dispatcher.StartServe: the branch in which `take` fails because a drain landed in between is a step of `DispatcherRuns`; here nothing comes between the two sections.
- Placement.Dispatcher.Scan: one clock reading per scan; the interleaving with drains and engines is the subject of `DispatcherRuns`.
- Fill.OrderMattersIffMentioned: sets aside pairs of values that mention each other and each hold their own key at least twice, since such a pair can commute by accident (`Fill.MutualMentionMayAgree`); that mixing is necessary for the order to show holds for them too (`Fill.OrderDoesNotMatter`). A text may hold single opening braces, but no two in a row other than a placeholder's and none at its end.
- Scope.AgentPublishes: matching is of concrete subjects against the allow lists; subscriptions that are themselves patterns are not treated.
