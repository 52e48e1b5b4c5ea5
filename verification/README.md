# Verification of the swale graph-run engine

A graph run executes the nodes of an acyclic graph for one partition. Every node has
a trigger rule over its upstreams. Handlers that may crash between any two commits,
and whose events and requests may be delivered again, drive the run over a key-value
store with compare-and-put. This project models that engine in Dafny and proves what
it promises.

The model has four layers.

1. **The run protocol.** `Store` holds what is stored for one graph run: the run
   record with its expected rerun counts, the node records, the run ids submitted so
   far, the active task instances, the pending events, the request records and the
   clock. `Interleaving` cuts every handler into its single reads and commits and
   lets any number of handlers interleave, crash and be delivered again; its theorems
   hold in every such run. `InterleavedSettles` and `BrokenSettles` say exactly when a
   settled run can still have an active instance, `InterleavedReruns` and `StaleReruns`
   exactly when a rerun can leave old inputs in its scope, and `Provenance` where records
   and inputs come from; `LoneHandlers` proves that the single steps of a handler that is
   left alone add up to the transition of the whole handler, and `Passes` builds the runs
   that the others need. `Scheduler` is the class with the
   handlers as methods, each proved equal to the transition of `Handlers`; `HandlerLaws`
   says over the fields of the store what each transition does, and `Settlement`,
   `Progress`, `RerunLaws` and `Confluence` prove what holds over whole runs of those
   transitions, of which any can also stop after some of its commits, and `Driver` joins
   the class to them. `Retention` is the expiry of the records.
2. **The readiness rule.** `Readiness`, `ReadinessLaws` and `Scopes`: the trigger
   rules, the ready/waiting/blocked classification as a fixpoint along the edges, the
   passes that compute it, and the scope of a rerun.
3. **The graph checker.** `CycleSearch`, `GraphCheck`, `WellFormedGraphs` and `Schedules`: the depth-first
   search with its witness, a graph built exactly when no fault exists, and the local
   schedule check that decides a claim about infinitely many occurrences.
4. **Rendering, mapped nodes and definitions.** `Templates`, `Params`, `TaskInput` and
   `Rendering` (parsing, rendering, slicing, and what a text renders to), `RunGroups`, `Mapped` and `MappedInstance` (the
   phases of a mapped node over a run group), `Keys`, `Listing` and `Definitions`
   (record keys, run ids, listings, publishing and adoption).

`Wrappers`, `Json`, `Records`, `Graphs` and `Text` hold the shared data types.

What the workflow runtime does is taken as: a submit of an id that was submitted
before is a no-op that says so; a termination commits its record and its event in one
commit; a compare-and-put is atomic; a run group accepts the members it already has
and starts those that did not succeed; a group call may be lost before or after its
effect.

Four properties that a reader might expect do not hold, and the project says exactly
where they stop.

- *A settled run has no active instance.* When handlers interleave, a step breaks it
  exactly in two cases: a settle commits, its compare holding, while an instance is
  active, or a start, an advance or a rerun submits a new instance of a run that is
  settled by then (`InterleavedSettles.StepBreaksExactly`; over whole runs,
  `RunBreaksExactly`). Without a rerun neither case ever occurs, exactly on the graphs
  whose one-failed nodes all have upstreams (`BrokenSettles.IdleWithoutRerunExactly`);
  with reruns one of them can occur on every graph that has a node
  (`BrokenSettles.IdleExactly`), and both on every graph with a root that is not
  one-failed (`RerunBreaks`, `SettleMissesARerun`). When handlers do not overlap it always holds
  (`Progress.SettledRunIsFinished`).
- *A run that completes after a rerun has rebuilt its scope from new inputs.* When
  handlers interleave, a step breaks it exactly when an advance or a rerun submits a new
  instance of another scope node without having read a newer record of some upstream in
  the scope (`InterleavedReruns.StepIsStaleExactly`; over whole runs,
  `RunIsStaleExactly`). Handlers that were in flight at the mark can do this, advances
  (`StaleReruns.AdvanceIsStale`) as well as other reruns (`StaleReruns.RerunIsStale`),
  and on graphs without one-failed nodes they can for exactly the nodes whose scope has
  another node (`StaleReruns.RebuildsExactly`). Handlers that begin after the mark never
  do, so the property holds when those in flight commit neither a submit nor a mark
  after it (`InterleavedReruns.InterleavedRerunRebuilds`). The records of the scope are
  newer in any case (`InterleavedReruns.CompletedRunRebuildsItsScope`).
- *Every settled run keeps its index entry beside a retention pass.* Over all covered
  stores and due entries it does exactly when every other handler commits its settle or
  request record less than the retention window after it read the clock
  (`Retention.CoverageSurvivesExactly`); for every window a commit that comes a window
  late can lose its entry (`Retention.LateCommitLosesAnEntry`).
- *The current definitions of a deployment share no asset.* A publish reads the pointers
  and then moves its own without a compare. It breaks this exactly when another pointer
  has moved between the two to a definition that shares an asset
  (`Definitions.Loader.OverlapBreaksExactly`), so of two overlapping publishes of
  different graphs both succeed and leave a conflict exactly when the graphs share an
  asset (`Definitions.Deployment.PublishBoth`). The adoption does not rely on it:
  `Definitions.Deployment.Sync` keeps the adopted graphs free of shared assets over any
  pointers.

Likewise the delay between two reads of a mapped node doubles up to the cap exactly
when the cap is within reach of the saturated power
(`Mapped.DelayDoublesUnlessSaturated`), and two graphs share a node record key exactly
when they share an asset (`Keys.KeysAreSharedExactly`): never two adopted graphs
(`Definitions.AdoptedKeysAreInjective`), but possibly an adopted graph and a definition
that an earlier run still records (`Definitions.EarlierDefinitionCanShareAKey`).

## Model

| member | source | states |
|---|---|---|
| InterleavingTheorems.SubmittedCountsArePrefix | swale/src/scheduler.rs:665-734 | In every interleaved run with crashes and redelivery, the counts submitted for a node are exactly those below its next count, and the next one when an instance is active; at most one instance of a node is active and it is the unrecorded one |
| InterleavingTheorems.RecordIsHighestTerminated | swale/src/hook.rs:93-122 | In every interleaved run the record of a node is that of its highest terminated count |
| InterleavingTheorems.OneTerminationMakesCurrent | swale/src/records.rs:270-276 | In every interleaved run every expected count is at most one past the count of a record that is there, and one termination of an active instance makes the record of its node current |
| InterleavingTheorems.HistoryOnlyGrows | swale/src/scheduler.rs:324-391 | Along any continuation of any run no submit, record, request record or unreached expected count is lost |
| InterleavingTheorems.InputsSatisfyTheRule | swale/src/scheduler.rs:665-698 | The input of every instance ever submitted is of stored upstream records that satisfy the trigger rule; only the first instance of a root may have none |
| InterleavingTheorems.RerunIsRecordedWithItsSubmit | swale/src/request.rs:216-232 | A rerun outcome is recorded by a step exactly when that step submits the instance of the request |
| InterleavingTheorems.RequestSubmitsAtMostOnce | swale/src/request.rs:190-270 | Over all deliveries and crashes, at most one instance is submitted with the record of one request |
| InterleavingTheorems.RecordedRequestIsInert | swale/src/request.rs:195-198 | Once a request has a record, the record stays and no later delivery changes anything |
| InterleavedSettles.StepBreaksExactly | swale/src/scheduler.rs:741-778 | In every world with the invariant whose settled run is idle, a step leaves a settled run with an active instance exactly when a settle's compare holds over an active instance, or a start, an advance or a rerun submits a new instance of a settled run |
| InterleavedSettles.RunBreaksExactly | swale/src/scheduler.rs:665-778 | No store of an interleaved run is settled with an active instance exactly when none of its steps is one of those two |
| InterleavedSettles.SettledWithoutRerunIsFinished | swale/src/scheduler.rs:475-544 | In every interleaved run without a rerun, of a graph whose one-failed nodes have upstreams, a settled run has no active instance and no ready or waiting node, and has the state that its records give |
| InterleavedSettles.FinalSawTheRecords | swale/src/scheduler.rs:665-698 | A handler without a rerun that finds a final state in what it has read has read every stored record |
| InterleavedSettles.SettledInterleavedRunHasTheOutcome | swale/src/readiness.rs:121-134 | With a fixed status for each node, such a run, however its handlers interleave and crash, settles with exactly the records of the nodes that fire, and is complete exactly when all fire and succeed |
| InterleavedSettles.InterleavedAgreesWithWhole | swale/src/scheduler.rs:475-544 | Such a run ends with the statuses and the state of any settled run of whole handlers |
| BrokenSettles.IdleWithoutRerunExactly | swale/src/scheduler.rs:284-296 | All interleaved runs of a graph without a rerun keep settled runs idle exactly when every one-failed node has an upstream |
| BrokenSettles.IdleExactly | swale/src/scheduler.rs:364-391 | With reruns they do so exactly on the graph without nodes |
| BrokenSettles.StartBreaks | swale/src/scheduler.rs:284-296 | On every graph with a one-failed root, a run without a rerun in which the start submits the root after the settle |
| BrokenSettles.RerunBreaks | swale/src/scheduler.rs:364-391 | On every graph with another root, a run in which a rerun makes the run active, a pass settles it, and the rerun then submits |
| BrokenSettles.SettleMissesARerun | swale/src/scheduler.rs:741-778 | On every such graph, a run in which a settle that has passed its activity scan commits over the instance that a rerun of an active run has submitted meanwhile |
| InterleavedReruns.StepIsStaleExactly | swale/src/scheduler.rs:676-693 | In every world after the mark of a rerun whose scope has new inputs, a step gives a scope node an old one exactly when an advance or a rerun submits it anew having read no newer record of some upstream in the scope |
| InterleavedReruns.RunIsStaleExactly | swale/src/scheduler.rs:376-391 | Over any run from such a world the inputs are new at its end exactly when they were at its start and no step is one of those |
| InterleavedReruns.ScopeIsHeldBack | swale/src/scheduler.rs:343-361 | In every world after the mark, however handlers interleave, no other node of the scope is ready by the stored records until each of its upstreams in the scope has a newer one |
| InterleavedReruns.InputsAreNewExactly | swale/src/scheduler.rs:343-384 | From an idle mark on, the inputs of the scope are new exactly when no stale instance is submitted, and none is when the handlers in flight at the mark submit nothing |
| InterleavedReruns.CompletedRunRebuildsItsScope | swale/src/scheduler.rs:343-384 | However handlers interleave, with further reruns or not, a run that is complete after an idle mark has a newer record of every node of the scope, and each from new inputs when no stale instance was submitted |
| InterleavedReruns.InterleavedRerunRebuilds | swale/src/scheduler.rs:343-384 | When the handlers in flight at the mark commit no submit and no mark after it and no rerun begins later, a completed interleaved run has rebuilt the scope from new inputs and kept the current records outside |
| StaleReruns.RebuildsExactly | swale/src/scheduler.rs:343-391 | On a graph without one-failed nodes, all interleaved runs that complete after the mark of a node of a settled run, without a further rerun, rebuild its scope exactly when the scope has no other node |
| StaleReruns.RerunIsStale | swale/src/scheduler.rs:376-391 | For every direct follower in the scope, a completed run in which its earlier rerun, in flight at the mark, submits it from the old record |
| StaleReruns.AdvanceIsStale | swale/src/scheduler.rs:676-693 | For every chain of three nodes in the scope, a completed run in which an advance in flight at the mark submits the last, which had no record, from the old record of the middle one |
| LoneHandlers.LoneHandlerIsWhole | swale/src/scheduler.rs:262-545 | From every world of every interleaved run, a start, an event, a pass, a rerun or a cancel that is left alone ends with the store that the whole handler would leave, request records included |
| LoneHandlers.LoneEventSubmits | swale/src/scheduler.rs:475-499 | From every such world, an event of a node handled alone over an active run submits exactly the instances past the record of the nodes with it upstream that have no current record and whose rule the stored records satisfy |
| LoneHandlers.LonePassAdvances | swale/src/scheduler.rs:502-544 | From every such world, a reconciler pass left alone over an active run without an active instance ends only with a new instance or with the run settled in the state of its records |
| LoneHandlers.LoneHandlerEnds | swale/src/scheduler.rs:262-545 | From every such world any handler that is left alone can go on to its end |
| Provenance.RecordsAreReported | swale/src/hook.rs:85-122 | In every interleaved run a stored record has the status, error, time and definition of the termination of its active instance, and the output when that succeeded |
| Provenance.InputsAreReported | swale/src/input.rs:69-96 | In every interleaved run the input of every submitted instance has exactly the outputs that the terminations of its succeeded upstreams reported, null when omitted, and the status and error of every upstream record |
| InterleavingLaws.EveryRunKeeps | swale/src/scheduler.rs:324-391 | Every interleaved run keeps the invariant of the store, of the requests and of every handler between two of its steps |
| InterleavingLaws.GoSubmitting | swale/src/scheduler.rs:665-698 | A submit from stale reads is sound: it is new only at the unrecorded count of its node, from records that satisfy the rule |
| InterleavingLaws.GoMarking | swale/src/scheduler.rs:364-375 | The compare-and-put of a rerun keeps the invariant and every unreached expected count |
| InterleavingLaws.GoResubmitting | swale/src/scheduler.rs:376-391 | The submit of a rerun from the marked record keeps the invariant and records the request in the same commit |
| InterleavingLaws.GoSettling | swale/src/scheduler.rs:741-778 | The commit of a settle from stale reads keeps the invariant |
| Settlement.PerformKeeps | swale/src/scheduler.rs:665-778 | Every sequence of handlers, whole or cut by a crash after some of their commits, keeps: a settled run has no active instance and the state that its current records give, beside the store invariant |
| Settlement.PruneKeepsCurrent | swale/src/scheduler.rs:762-770 | The settle's removal of reached expected counts changes no record's currency |
| Settlement.ScanFindsActive | swale/src/scheduler.rs:753-761 | The scan of the unrecorded instances finds exactly the active ones |
| Progress.SettledRunIsFinished | swale/src/scheduler.rs:741-778 | In every run from the empty store of handlers that do not overlap, whole or cut by a crash, a settled run has no active instance and no ready or waiting node, and it is complete exactly when every node has a current succeeded record |
| Progress.SettledRunIsFinal | swale/src/scheduler.rs:475-544 | Until a rerun, no sequence of handlers changes a settled run or its node records |
| Progress.NoRunIsStuck | swale/src/scheduler.rs:502-544 | A reconciler pass over an active run without an active instance settles it or submits an instance that was never submitted before |
| Progress.TerminationsAreBounded | swale/src/scheduler.rs:502-544 | Without a rerun request, the terminations to come plus the work left equal the nodes without a current record plus the active instances over one |
| Progress.DiligentRunSettles | swale/src/scheduler.rs:502-544 | A run whose handlers keep terminating instances or else reconciling settles within twice that work, whatever the statuses |
| RerunLaws.RerunSubmitsOne | swale/src/scheduler.rs:364-391 | A rerun of a succeeded node of a settled run submits the next count of its node and nothing else, over the marked run record and the same node records |
| RerunLaws.RerunKeepsOwnReadiness | swale/src/scheduler.rs:347-363 | Marking the scope of a rerun leaves the readiness test of its node as it was, over the same records |
| RerunLaws.RerunHoldsBackItsScope | swale/src/scheduler.rs:343-361 | After the rerun of a succeeded node of a settled run no other node of the scope is ready until each of its upstreams in the scope has a newer record |
| RerunLaws.RerunRebuildsItsScope | swale/src/scheduler.rs:343-384 | If that run completes with no further rerun, every node of the scope has a newer record built from newer records of its upstreams in the scope, and the current records outside are the same |
| Confluence.SettledRunHasTheOutcome | swale/src/readiness.rs:121-134 | With a fixed status for each node, every settled run, in whatever order of handlers, whole or cut by a crash, has exactly the records of the nodes that fire, and is complete exactly when all fire and succeed |
| Confluence.RunsAreConfluent | swale/src/scheduler.rs:475-544 | Two settled runs of the same statuses have the same statuses of records and the same state |
| Confluence.EventsAloneSettle | swale/src/scheduler.rs:475-499 | Events over the downstreams alone, with no reconciler pass, settle every run once all events are handled and all instances have ended |
| HandlerLaws.RerunGoesAheadExactly | swale/src/scheduler.rs:331-363 | Whatever the status of the record, a rerun goes ahead exactly when the run, the node and its record exist and the records current before the rerun satisfy its rule; otherwise nothing changes and the outcome says which is missing |
| HandlerLaws.RerunLeaves | swale/src/scheduler.rs:364-391 | A rerun that goes ahead leaves an active run and the count past the record submitted, from the current records of its upstreams, with the record of its request in the same commit, or finds exactly that instance active |
| HandlerLaws.RerunExpects | swale/src/scheduler.rs:347-361 | The expected counts after it are past the records of the scope when the record was current and succeeded, and as before otherwise |
| HandlerLaws.AdvanceSubmitsExactly | swale/src/scheduler.rs:665-693 | An advance submits exactly the candidates without a current record whose rule the current records satisfy, at the count past the record and from the current upstream records |
| HandlerLaws.EventSubmitsExactly | swale/src/scheduler.rs:475-499 | The handling of an event of a node does so for exactly the nodes that have it upstream, when the run is active |
| HandlerLaws.ReconcileSubmitsExactly | swale/src/scheduler.rs:502-544 | A reconciler pass does so for exactly the nodes of an active run |
| HandlerLaws.AdvanceSettlesExactly | swale/src/scheduler.rs:741-778 | An advance settles exactly when no instance is active and none is due, complete exactly when every node has a current succeeded record, at the clock's time, and keeps exactly the expected counts that no record has reached |
| HandlerLaws.StartDoesExactly | swale/src/scheduler.rs:262-301 | A start creates an active run exactly when there is none, and submits the first instance of exactly the nodes without upstreams |
| HandlerLaws.CancelDoesExactly | swale/src/scheduler.rs:396-417 | A cancel ends exactly an active run, at the clock's time, and changes nothing else |
| HandlerLaws.CancelReachesExactly | swale/src/scheduler.rs:841-869 | The instances that a cancel asks to end are exactly the active ones, and the mapped nodes whose members it reaches exactly those without a current succeeded record |
| HandlerLaws.RequestRecordsExactly | swale/src/request.rs:190-270 | A new request is recorded once, at the clock's time, with the answer that the store before it gives: started or not, the rerun or why it is refused, cancelled or not; a recorded one changes nothing |
| HandlerLaws.RequestTakesEffect | swale/src/request.rs:190-270 | Beside its record a new request has exactly the effect of its start, rerun or cancel |
| Scheduler.Scheduler.SubmitNode | swale/src/scheduler.rs:703-734 | The idempotent submit, and with a new instance of a request its record, in one commit |
| Scheduler.Scheduler.TerminateRun | swale/src/hook.rs:85-122 | A termination stores the record and the event of its node and ends the instance, and nothing else changes |
| Scheduler.Scheduler.StartRun | swale/src/scheduler.rs:262-301 | Creates the run and submits the roots once; an existing run is unchanged |
| Scheduler.Scheduler.Advance | swale/src/scheduler.rs:665-698 | Submits exactly the ready candidates and then settles when the run is finished |
| Scheduler.Scheduler.SubmitCandidates | swale/src/scheduler.rs:676-693 | The loop submits every ready candidate once and counts the new ones |
| Scheduler.Scheduler.Settle | swale/src/scheduler.rs:741-778 | Writes the final state with the clock's time and the pruned counts exactly when a final state exists and no unrecorded instance is active |
| Scheduler.Scheduler.FindActiveUnrecorded | swale/src/scheduler.rs:753-761 | Finds an active unrecorded instance exactly when there is one |
| Scheduler.Scheduler.HandleEvent | swale/src/scheduler.rs:475-499 | Advances over the downstreams of the node of the event, when the run is active |
| Scheduler.Scheduler.Reconcile | swale/src/scheduler.rs:502-544 | Advances an active run over all of its nodes, and cancels what a cancelled run left active |
| Scheduler.Scheduler.RerunNode | swale/src/scheduler.rs:324-391 | The whole new state and the outcome of a rerun, for each refusal, each status of the record and each marked scope |
| Scheduler.Scheduler.MarkedRun | swale/src/scheduler.rs:347-361 | The loop over the scope gives exactly the expected counts of its recorded nodes |
| Scheduler.Scheduler.CancelRun | swale/src/scheduler.rs:396-417 | Cancels an active run once, and asks exactly the instances still active and the members of the unrecorded mapped nodes to end |
| Scheduler.Scheduler.CancelActiveRuns | swale/src/scheduler.rs:841-869 | Asks exactly the active unrecorded instances to end, and the members of every mapped node with an unrecorded instance, active or not |
| Scheduler.Scheduler.MarkForRerun | swale/src/scheduler.rs:331-375 | Writes the marked record exactly when the rerun is not refused, and otherwise says why |
| Driver.Drive | swale/src/scheduler.rs:549-606 | Any sequence of calls of the scheduler ends in the state that the transitions give, and keeps their invariant |
| Driver.Run | swale/src/scheduler.rs:549-606 | A scheduler that starts with nothing stored has, whenever its run is settled, no active instance, and is complete exactly when every node has a current succeeded record |
| Scheduler.Scheduler.HandleRequest | swale/src/request.rs:190-270 | Returns the record of a handled request and changes nothing, or applies it and records its outcome |
| RunLaws.MarkedSupersedes | swale/src/scheduler.rs:352-361 | The mark of a rerun leaves no current succeeded record of its node |
| Readiness.NodeStates | swale/src/readiness.rs:138-172 | The passes end on every acyclic graph, in any definition order, with the state that the recursion along the edges gives every node |
| Readiness.Pass | swale/src/readiness.rs:143-170 | A pass keeps the resolved states right and resolves at least the unresolved node of least rank |
| Readiness.ClassificationIsUnique | swale/src/readiness.rs:138-172 | Any classification in which each node has the state its upstreams give it is the recursive one |
| ReadinessLaws.StateReads | swale/src/readiness.rs:121-187 | What ready, waiting and blocked mean over the records and the upstreams, both directions |
| ReadinessLaws.WaitingHasReadyAncestor | swale/src/readiness.rs:174-187 | Every waiting node has a ready ancestor |
| ReadinessLaws.SettledExactlyWithoutReadyNodes | swale/src/readiness.rs:189-198 | There is no final state exactly when some node is ready, and the final state is complete exactly when every node succeeded |
| ReadinessLaws.OneRecordFollows | swale/src/readiness.rs:138-187 | How the state of every node can change when one ready node gets a record of any status |
| ReadinessLaws.BlockedIsPermanent | swale/src/readiness.rs:174-187 | No sequence of records of ready nodes unblocks a blocked node or gives it a record |
| Scopes.RerunScope | swale/src/readiness.rs:97-117 | The worklist ends with the scope, in definition order |
| Scopes.ScopeIsLeast | swale/src/readiness.rs:92-117 | The scope contains the node, is closed under all-succeeded downstream edges, and is within every such set |
| Scopes.ScopeIsDownstream | swale/src/readiness.rs:97-117 | Every other member has a larger rank, so the upstreams of the rerun node are outside of its scope |
| CycleSearch.Search.Visit | swale/src/graph.rs:715-745 | The visit of a node ends with a cycle along upstream edges, or with the node and everything upstream finished in order and the path as before |
| CycleSearch.FindCycle | swale/src/graph.rs:703-763 | A returned path is a cycle with its first node repeated, and none is returned exactly when the nodes have a rank |
| CycleSearch.CycleRefutesRank | swale/src/graph.rs:703-763 | A cycle and a rank exclude each other |
| GraphCheck.Build | swale/src/graph.rs:370-538 | A graph is built exactly when there is no fault and no cycle, with the declared upstreams and their exact inverse, and otherwise the problems are exactly the faults, or one real cycle |
| GraphCheck.CheckTemplates | swale/src/graph.rs:622-672 | Reports exactly the faulty references of the parameters at every depth |
| GraphCheck.CheckEach | swale/src/graph.rs:676-699 | Reports exactly the faulty references of the items template |
| GraphCheck.CheckProducers | swale/src/graph.rs:433-440 | Reports an asset exactly when more than one node produces it, with all of them |
| GraphCheck.CheckEdges | swale/src/graph.rs:442-471 | Reports exactly the declared upstreams that do not exist and collects the others |
| GraphCheck.BuildNodes | swale/src/graph.rs:508-528 | The nodes have the collected upstreams, and the downstreams are their exact inverse |
| WellFormedGraphs.FaultlessExactly | swale/src/graph.rs:370-538 | The checks find no fault exactly in a definition with valid, short and distinct names, one producer for every asset, all dependencies there, a schedule that fits its partitions, accepted operators, and templates that parse and refer only to dependencies |
| GraphCheck.EdgesAreDependencies | swale/src/graph.rs:442-471 | Of two nodes of a built graph one is upstream of the other, which is downstream of it, exactly when by the definition it produces an asset that the other consumes, or the other comes after it |
| GraphCheck.DependenciesExist | swale/src/graph.rs:442-471 | Without a fault every consumed asset has a producer and every node that another comes after is there |
| GraphCheck.FaultlessGraph | swale/src/graph.rs:370-538 | Without a fault the names, the assets and the templates of the graph are as the keys, the run ids and the rendering rely on |
| Schedules.NeighboursDecide | swale/src/graph.rs:604-620 | Comparing the two neighbours of the first occurrence decides whether any two of all occurrences share a partition |
| Schedules.DistinctFiringsRunDistinctPartitions | swale/src/scheduler.rs:423-437 | Two firings of an accepted schedule run two partitions |
| Templates.Parse | swale/src/template.rs:127-149 | The parse loop gives the segments, or the first error with its offset, that the recursion over the first reference gives |
| Templates.ReferenceRoundTrip | swale/src/template.rs:228-267 | A parsed reference prints as the text it was parsed from |
| Templates.PrintRoundTrip | swale/src/template.rs:127-149 | A parsed template prints to a text that parses to the same template |
| Rendering.SubstitutionLaw | swale/src/template.rs:127-204 | Over the text: without a reference it renders to itself; cut at its first reference it renders to what is before it, the value of the reference and the rendering of the rest, or the first error; it is a template exactly when the text between the braces is a reference and the rest is a template |
| Rendering.EverySourceIsCut | swale/src/template.rs:127-149 | Every text holds no opening braces, or first ones that are not closed, or is cut at its first reference, in exactly one way |
| Rendering.ReferencesExactly | swale/src/template.rs:228-280 | The references are exactly `partition`, `run.id`, `run.summary`, `env.NAME`, and `item` and `upstream.NODE` with a dotted path |
| Rendering.ReferenceHasItsValue | swale/src/template.rs:168-204 | What each reference text stands for in the context, or why it stands for nothing |
| Rendering.LookupLeads | swale/src/template.rs:209-218 | A lookup finds exactly the value that the path leads to, by the first member of a key or by the numeral of a position, part by part |
| Rendering.TreeRendersEachLeaf | swale/src/input.rs:215-234 | A parameter tree renders exactly when all of its strings do, to the same shape, keys and other leaves with every string rendered; an error is that of one of its strings |
| Rendering.ParameterReads | swale/src/input.rs:131-149 | A parameter that is one reference renders to the identity of the run, the environment, the outputs of the input or its item |
| Rendering.ItemsRead | swale/src/input.rs:154-192 | The items are the JSON array that the items template renders to, without an item in its context |
| Templates.Render | swale/src/template.rs:168-204 | Rendering gives the concatenated segments or the error of the first that does not resolve |
| Params.ReferredUpstreams | swale/src/input.rs:196-213 | The set extended in place is exactly the upstreams that a string at any depth refers to |
| Params.RenderReadsReferred | swale/src/input.rs:215-234 | Rendering at every depth reads no upstream but those |
| Params.CheckedTreeErrors | swale/src/graph.rs:622-672 | A tree that passed the checks never renders to a missing upstream, or a missing item, when the outputs it declares are there |
| TaskInput.NewInput | swale/src/input.rs:69-96 | The loop collects the outputs of the succeeded records and a summary of every record |
| TaskInput.Member | swale/src/input.rs:99-115 | The input of a member is that of the node with exactly the referred outputs, and the item |
| TaskInput.SlicingIsTransparent | swale/src/input.rs:99-149 | A member renders its parameters to the same value or the same error as with every output |
| TaskInput.SliceIsDetermined | swale/src/input.rs:99-115 | An output that the parameters do not refer to cannot change the input of a member |
| TaskInput.ReadyParamsRender | swale/src/input.rs:131-149 | The parameters of a ready all-succeeded node never miss an upstream or an item |
| TaskInput.ReadyItemsRender | swale/src/input.rs:154-192 | Nor do the items of a ready all-succeeded mapped node |
| TaskInput.ReadyMemberRenders | swale/src/input.rs:131-149 | Nor do the parameters of its members |
| TaskInput.NoItemIsMissing | swale/src/graph.rs:676-699 | No node of a checked graph misses its item, whatever its rule and its records, in its parameters, its items or the parameters of a member |
| TaskInput.SubmittedInstanceRenders | swale/src/input.rs:131-192 | In every interleaved run of a checked graph, every submitted instance of an all-succeeded node renders, paths and variables apart |
| RunGroups.RunGroup.Forget | swale/src/dispatch.rs:248-251 | Removes the group; the caller owes that no member is active, which every call site proves |
| Mapped.OutputsIgnoreOrder | swale/src/dispatch.rs:318-352 | In whatever order the results of a group are listed, they are gathered in item order |
| Mapped.GatheredOutputs | swale/src/dispatch.rs:325-352 | An ended group gives its outputs exactly when every member succeeded and kept its result, and a failure with the count and the first member in item order exactly when one did not succeed |
| Mapped.DelayIsBounded | swale/src/dispatch.rs:152-156 | The delay starts at the interval, never falls, and stays within the cap |
| Mapped.DelayDoublesUnlessSaturated | swale/src/dispatch.rs:134-156 | The delay is the doubled interval up to the cap for every count exactly when the cap is at most the interval times the largest 32-bit count |
| MappedInstance.Instance.Replace | swale/src/dispatch.rs:238-253 | A group with other members is removed only when none of them is active; otherwise exactly the active ones are asked to end |
| MappedInstance.Instance.SubmitStep | swale/src/dispatch.rs:207-261 | The submit phase leaves the group with the members of the rendered items, waits, or fails on the items, with lost answers and members ending at every call; when it goes on, all members of a cancelled instance and of a replaced group have ended or been asked to, and no others have been asked |
| MappedInstance.Instance.PollStep | swale/src/dispatch.rs:262-295 | The poll phase waits, returns to the submit phase only without a group, finishes with the outputs of succeeded members in item order, or fails naming the members that did not succeed; all members of a cancelled instance have then ended or been asked to, and no others have been asked |
| MappedInstance.Instance.FinishStep | swale/src/dispatch.rs:296-301 | The finish phase removes the group and succeeds with the stored output, also when it runs again |
| MappedInstance.Instance.Execute | swale/src/dispatch.rs:186-303 | One step, re-executed or not, keeps what the phase relies on; without interference it does what the transition says, branch by branch; a cancelled instance that goes on from or into the poll phase leaves no member that is not asked to end |
| MappedInstance.Instance.Run | swale/src/dispatch.rs:186-303 | Over any steps with crashes, lost answers and members ending meanwhile, a success delivers for every item of the last submit the output of its succeeded member, and a failure leaves an ended group with such a member |
| MappedInstance.EachStepAdvances | swale/src/dispatch.rs:186-303 | When the members end between the steps, every step ends the instance or brings it closer to its end, within five steps from any earlier group |
| Retention.RecordStore.CommitSettled | swale/src/scheduler.rs:784-809 | The settled record and its index entry commit together against the record read, at the time read before the commit, and coverage is kept |
| Retention.AppliedKeepsCoverage | swale/src/scheduler.rs:784-809 | Every commit keeps: a run is active exactly without a settle time, and every settled run and request record has an entry at its own time |
| Retention.DiscardKeepsCoverage | swale/src/retention.rs:155-159 | Removing an entry alone keeps the coverage exactly when it is not the entry of a record |
| Retention.RemovalKeepsCoverage | swale/src/retention.rs:122-153 | A removal under the compare takes a record and its own entry together |
| Retention.RecordStore.ExpireEntry | swale/src/retention.rs:98-153 | What one entry removes, with other handlers committing between the reads and the removal |
| Retention.RecordStore.Expire | swale/src/retention.rs:48-91 | The store after a pass beside other handlers is that after its turns, each the given commits and then a removal decided from what the turn read; prompt commits keep the coverage; alone the pass handles the due entries up to the first failure, removes nothing else, and its report counts what is gone |
| Retention.GoneRunWasAged | swale/src/retention.rs:98-134 | Whatever other handlers commit, a run that was there before or beside some turn and is gone after the pass was aged by the pass's clock, with a definition that loads, when its turn removed it |
| Retention.GoneRequestWasAged | swale/src/retention.rs:139-153 | The same of a request record |
| Retention.PassRemovesExactlyTheDue | swale/src/retention.rs:48-153 | A failure-free pass removes exactly the runs and the request records of that age whose definitions load, with their node records, and leaves no stale due entry |
| Retention.CoverageSurvivesExactly | swale/src/retention.rs:48-159 | For every window and delay: beside commits of at most that delay every due entry of every covered store leaves the store covered exactly when the delay is below the window |
| Retention.LateCommitLosesAnEntry | swale/src/retention.rs:155-159 | For every window a settle that commits a window after it read the clock loses its entry to the discard of an older one |
| Keys.RecordKeysAreInjective | swale/src/records.rs:66-147 | Over graphs that share no asset, a node record key belongs to one graph, node and partition |
| Keys.KeysAreSharedExactly | swale/src/records.rs:66-147 | Two named graphs of different names have a node record key in common exactly when they have an asset in common |
| Keys.FamiliesAreDisjoint | swale/src/records.rs:27-86 | Keys of two kinds of records are never equal |
| Keys.RunIdsAreInjective | swale/src/task.rs:64-78 | Run ids and group ids determine their parts, and a run id is never a group id |
| Keys.RunIdsFit | swale/src/graph.rs:15-18 | The bound on the names keeps every run id and group id within 128 bytes |
| Keys.GraphRunKeyRoundTrip | swale/src/records.rs:52-63 | A run key parses to its graph and partition, and only such a key parses |
| Keys.GraphKeyRoundTrip | swale/src/records.rs:41-49 | The same for a graph key |
| Keys.SuffixRoundTrip | swale/src/records.rs:100-126 | An index suffix parses to the record it refers to, and only such a suffix parses |
| Keys.HeadersRoundTrip | swale/src/task.rs:116-146 | The headers identify the task instance they were made of, also on a member |
| Listing.ScanLast | swale/src/records.rs:416-431 | Reading from the last key on gives the end of the whole listing, however many values are skipped |
| Definitions.ConflictingAsset | swale/src/graph.rs:587-594 | The first node whose asset the other graph produces, or none |
| Definitions.Deployment.Get | swale/src/definition_store.rs:138-158 | A loaded graph is the one its hash means, cached or not; a damaged object is an error |
| Definitions.Deployment.CheckPublish | swale/src/definition_store.rs:105-121 | The part of a publish that reads: it passes only a definition that shares no asset with any other pointer read, and a conflict it names is one |
| Definitions.Deployment.CommitPublish | swale/src/definition_store.rs:122-134 | The part that writes, over whatever the pointers are by then: it moves its pointer, and leaves the definitions free of shared assets exactly when no other pointer refers to a definition that shares one |
| Definitions.Deployment.Publish | swale/src/definition_store.rs:105-134 | Without another publish in between: keeps the current definitions free of shared assets through any failure, succeeds only without a conflict, and fails only on a text that does not load, a true conflict, a current definition that does not load, or the store |
| Definitions.Deployment.PublishBoth | swale/src/definition_store.rs:105-134 | Two publishes that both read before either writes: both succeed, and the current definitions are free of shared assets exactly when the two graphs share none or have one name |
| Definitions.Loader.OverlapBreaksExactly | swale/src/definition_store.rs:105-134 | The write of a publish makes current definitions share an asset exactly when another pointer has moved since its read to a definition that shares one with it |
| Definitions.OverlappingPublishesCanConflict | swale/src/definition_store.rs:105-134 | Two concrete graphs with one asset whose overlapping publishes both pass the check and leave a conflict |
| Definitions.Deployment.Check | swale/src/daemon.rs:221-252 | No reason exactly when the name, the pools and the assets allow the adoption, and otherwise a true reason |
| Definitions.Deployment.Sync | swale/src/daemon.rs:106-152 | Every pass, also one that ends early, keeps the adopted graphs free of shared assets, adopts only the definition of a pointer, drops no graph and reports each changed pointer once; it adopts every changed definition that loads, is of its name, has its runtimes and shares no asset with a graph adopted before or after, every refusal is true, and it fails at the crash or on an adopted definition whose object is damaged, and on every one that is not cached |
| Definitions.AdoptedKeysAreInjective | swale/src/daemon.rs:106-152 | Over all adopted graphs a node record key belongs to one graph, node and partition |
| Definitions.EarlierDefinitionCanShareAKey | swale/src/daemon.rs:239-250 | A concrete earlier definition shares a key with a graph that was adopted since |

## Left out

- The operators, lease keeping, process handling, worker loops, shutdown, logging, the command line and the status views: an operator is an arbitrary terminal status and output.
- The runtime, the queue, the cron scheduler and the object store: only what the source relies on of their calls is modelled.
- TOML and JSON parsing, hashing and calendar arithmetic: abstract functions, and day and hour numbers for partitions; the cut at the year 9999 is not modelled.
- The order of a set: upstreams, downstreams, names and pointers are visited in an arbitrary order, where the source visits them in lexical order.
- The width of a rerun count and of the count of polls: unbounded, where the source has 32 bits; `Keys.RunIdsFit` and `Keys.HeadersRoundTrip` take the width as a condition.
- The fields of a record that no decision reads: the run id, the time of the request and the termination, and the mark of an output omitted beyond the value cap, which is an absent output here.
- More than one graph run in one store: `Store` holds one run, and `Keys` proves that the keys and ids of two runs are apart.
- Two deliveries of one request at the same time: one worker handles a request, and a crash can only redeliver it.
- Scheduler.Scheduler.HandleRequest: a start request lists one partition, the one of the modelled run; the others start runs of their own stores.
- The catch-up window of a schedule.
- The effect of a cancel on an operator: a cancelled instance terminates at some later time with any status.
- The path of a parameter within a template problem, the byte offsets of characters beyond ASCII and the Unicode spaces of a trim.
- The order of the problems of a graph, and the operator check of its builder: any predicate over the node.
- Publishing during a sync pass: the pass reads the pointers once, and a publish only adds objects and moves pointers.
- A step of a mapped node that runs on two workers at once, the permanence of its runtime errors and the count of attempts: a failed step runs again or the instance ends.
- The removal of the run groups of an expired run: only its failure, which ends the removals of a pass, is modelled.
- Convergence of adoption: repeated passes need not adopt every published definition when two graphs exchange assets.
- Confluence.EventsAloneSettle: graphs with a one-failed root are excluded, as a start submits such a root although no record makes it ready.
- Confluence.SettledRunHasTheOutcome: the same graphs are excluded, and reruns and cancels, whose records depend on their time; `InterleavedSettles.SettledInterleavedRunHasTheOutcome` covers cancels and interleaving.
- Confluence.RunsAreConfluent: as the outcome it follows from.
- Progress.SettledRunIsFinished: handlers do not overlap here; `InterleavedSettles` and `BrokenSettles` say what holds when they do.
- RerunLaws.RerunRebuildsItsScope: handlers do not overlap here; `InterleavedReruns` and `StaleReruns` say what holds when they do.
- RerunLaws.RerunHoldsBackItsScope: the same; `InterleavedReruns.ScopeIsHeldBack` holds when they do.
- StaleReruns.RebuildsExactly: graphs with a one-failed node are excluded from the runs that are built, as they complete only by way of failures; that a scope of one node is rebuilt is proved for them too (`StaleReruns.SingleRebuilds`).
- Driver.Run: the calls of the scheduler come one at a time; `InterleavedSettles` and `InterleavedReruns` are about workers that run at the same time.
- Retention.RecordStore.Expire: that prompt commits keep the coverage goes one way; `Retention.CoverageSurvivesExactly` goes both ways, for one entry.
- Definitions.Deployment.Publish: no other publish overlaps; `Definitions.Deployment.CheckPublish` and `Definitions.Deployment.CommitPublish` are the two parts between which one can.
- Schedules.NeighboursDecide: expressions of the form any days, hours and minutes.
- RunGroups.RunGroup.Forget: whether the runtime itself refuses a group with an active member is not modelled; the callers prove that there is none.
