/**
 Runs in which every handler is one step: a settled run is finished and stays so
 until a rerun, and an active run always has work that leads to its end.
 */
module Settlement {
  import opened Wrappers
  import opened Json
  import opened Records
  import opened Graphs
  import opened Readiness
  import opened ReadinessLaws
  import opened Scopes
  import opened Store
  import opened RunRules
  import opened RunLaws
  import opened Handlers

  datatype Action =
    | Start(definition: string)
    | Event(node: Name)
    | Reconcile
    | RerunOf(node: Name)
    | Cancel
    | Deliver(id: RequestId, request: Request)
    | Terminated(run: RunId, status: RecordStatus, output: Option<Value>, error: Option<string>)
    | Acknowledge(node: Name)
    | Tick
    // a handler that crashes after some of its commits
    | StartCut(definition: string, roots: set<Name>)
    | AdvanceCut(candidates: set<Name>)
    | RerunCut(node: Name)

  ghost function Do(g: Graph, st: Store, a: Action): Store
    requires g.Valid()
  {
    match a
    case Start(definition) => StartTo(g, st, definition)
    case Event(n) => if n in st.events then EventTo(g, st, n) else st
    case Reconcile => ReconcileTo(g, st)
    case RerunOf(n) => RerunTo(g, st, n, None).0
    case Cancel => CancelTo(st)
    case Deliver(id, request) => RequestTo(g, st, id, request)
    case Terminated(id, status, output, error) =>
      if id in st.active && id in st.submitted then Terminate(st, id, status, output, error) else st
    case Acknowledge(n) => st.(events := st.events - {n})
    case Tick => st.(clock := st.clock + 1)
    case StartCut(definition, roots) => if roots <= g.Roots() then StartSome(st, definition, roots) else st
    case AdvanceCut(candidates) =>
      if IsActive(st) && candidates <= g.index.Keys then SubmitReady(g, st, st.run.value, candidates) else st
    case RerunCut(n) => MarkTo(g, st, n)
  }

  ghost function Perform(g: Graph, st: Store, actions: seq<Action>): Store
    requires g.Valid()
    decreases |actions|
  {
    if actions == [] then st else Perform(g, Do(g, st, actions[0]), actions[1..])
  }

  predicate IsRerun(a: Action) {
    a.RerunOf? || a.RerunCut? || (a.Deliver? && a.request.RerunRequest?)
  }

  predicate IsSettled(st: Store) {
    st.run.Some? && st.run.value.state in {RunComplete, RunFailed}
  }

  ghost function CurrentStates(g: Graph, st: Store): map<Name, NodeState>
    requires g.Valid() && st.run.Some?
  {
    StatesOf(g, CurrentRecords(st.run.value, st.records))
  }

  /** A settled run has no active instance, and its state is that of its records. */
  ghost predicate SettledInv(g: Graph, st: Store)
    requires g.Valid()
  {
    IsSettled(st) ==>
      && st.active == {}
      && SettledState(CurrentStates(g, st)) == Some(st.run.value.state)
  }

  ghost predicate AtomicInv(g: Graph, st: Store)
    requires g.Valid()
  {
    StoreInv(g, st) && SettledInv(g, st)
  }

  // ---- Each handler keeps the invariant ----

  lemma SubmitAllKeeps(g: Graph, st: Store, inputs: map<RunId, Payload>)
    requires StoreInv(g, st) && st.run.Some?
    requires forall id {:trigger id in inputs} :: id in inputs ==>
               MaySubmit(g, st, id, inputs[id]) && inputs[id].request == None
    ensures StoreInv(g, SubmitAll(st, inputs))
    ensures Later(st, SubmitAll(st, inputs))
  {
    var next := SubmitAll(st, inputs);
    var new_ := inputs - st.submitted.Keys;
    forall id | id in new_
      ensures id.rerun == NextCount(st.records, id.node) && MaySubmit(g, st, id, next.submitted[id])
    {
      assert id in inputs && next.submitted[id] == inputs[id];
    }
    assert CountsInv(next);
    assert ActiveInv(st.run.value, next);
    assert PayloadInv(g, next);
  }

  lemma ViewOfNow(g: Graph, st: Store)
    requires StoreInv(g, st) && st.run.Some?
    ensures View(st.run.value, st.records, st)
  {
  }

  lemma ReadyInputsMaySubmit(g: Graph, st: Store, candidates: set<Name>, id: RunId)
    requires g.Valid() && StoreInv(g, st) && st.run.Some? && candidates <= g.index.Keys
    requires id in ReadyInputs(g, st.run.value, st.records, candidates)
    ensures MaySubmit(g, st, id, ReadyInputs(g, st.run.value, st.records, candidates)[id])
    ensures ReadyInputs(g, st.run.value, st.records, candidates)[id].request == None
  {
    hide StateOf;
    var run := st.run.value;
    var n := id.node;
    assert id in ReadyRuns(g, run, st.records, candidates);
    ViewOfNow(g, st);
    StateReads(g, CurrentRecords(run, st.records), n);
    UnrecordedState(g, CurrentRecords(run, st.records), n);
    hide StoreInv;
    ViewMaySubmit(g, st, run, st.records, n, PayloadOf(g, run, st.records, n));
  }

  lemma SubmitReadyKeeps(g: Graph, st: Store, candidates: set<Name>)
    requires g.Valid() && StoreInv(g, st) && st.run.Some? && candidates <= g.index.Keys
    ensures StoreInv(g, SubmitReady(g, st, st.run.value, candidates))
    ensures Later(st, SubmitReady(g, st, st.run.value, candidates))
  {
    hide StoreInv, MaySubmit, ReadyInputs, Later;
    var inputs := ReadyInputs(g, st.run.value, st.records, candidates);
    forall id {:trigger id in inputs} | id in inputs
      ensures MaySubmit(g, st, id, inputs[id]) && inputs[id].request == None
    {
      ReadyInputsMaySubmit(g, st, candidates, id);
    }
    SubmitAllKeeps(g, st, inputs);
  }

  /** Removing the reached expected counts changes no record's currency. */
  lemma PruneKeepsCurrent(run: GraphRunRecord, records: NodeRecords, state: GraphRunState, now: nat)
    ensures CurrentRecords(Settled(run, records, state, now), records) == CurrentRecords(run, records)
  {
  }

  /** Every active instance is found by the activity scan. */
  lemma ScanFindsActive(g: Graph, st: Store)
    requires g.Valid() && StoreInv(g, st) && st.run.Some?
    ensures HasActiveUnrecorded(g, st, st.run.value) <==> st.active != {}
    ensures ActiveUnrecorded(g, st, st.run.value) == st.active
  {
    var run := st.run.value;
    forall id | id in st.active
      ensures id.node in g.index && IsActiveUnrecorded(st, run, id.node)
      ensures UnrecordedRunId(run, st.records, id.node).value == id
    {
      assert id in st.submitted;
    }
    if st.active != {} {
      var id :| id in st.active;
      assert IsActiveUnrecorded(st, run, id.node);
    }
  }

  lemma SettleKeeps(g: Graph, st: Store)
    requires g.Valid() && StoreInv(g, st) && IsActive(st)
    ensures AtomicInv(g, SettleTo(g, st, st.run.value))
    ensures Later(st, SettleTo(g, st, st.run.value))
  {
    hide StateOf;
    var run := st.run.value;
    ViewOfNow(g, st);
    LaterReflexive(g, st);
    ScanFindsActive(g, st);
    SettledExactlyWithoutReadyNodes(g, CurrentRecords(run, st.records));
    if CanSettle(g, st, run) {
      var state := SettledState(StatesOf(g, CurrentRecords(run, st.records))).value;
      SettledKeeps(g, st, run, st.records, state);
      PruneKeepsCurrent(run, st.records, state, st.clock);
    }
  }

  lemma AdvanceKeeps(g: Graph, st: Store, candidates: set<Name>)
    requires g.Valid() && StoreInv(g, st) && IsActive(st) && candidates <= g.index.Keys
    ensures AtomicInv(g, AdvanceTo(g, st, candidates))
    ensures Later(st, AdvanceTo(g, st, candidates))
  {
    hide StoreInv, Later, SettledInv;
    var mid := SubmitReady(g, st, st.run.value, candidates);
    SubmitReadyKeeps(g, st, candidates);
    SettleKeeps(g, mid);
    LaterTransitive(st, mid, AdvanceTo(g, st, candidates));
  }

  lemma StartKeeps(g: Graph, st: Store, definition: string, roots: set<Name>)
    requires g.Valid() && AtomicInv(g, st) && roots <= g.Roots()
    ensures AtomicInv(g, StartSome(st, definition, roots))
    ensures Later(st, StartSome(st, definition, roots))
  {
    LaterReflexive(g, st);
    if st.run == None {
      var created := st.(run := Some(NewRun(definition, st.clock)));
      CreateRunKeeps(g, st, created.run.value);
      NothingBeforeTheRun(g, st);
      var inputs := RootInputs(definition, roots);
      forall id {:trigger id in inputs} | id in inputs
        ensures MaySubmit(g, created, id, inputs[id]) && inputs[id].request == None
      {
        assert g.Get(id.node).upstreams == {};
      }
      SubmitAllKeeps(g, created, inputs);
      LaterTransitive(st, created, StartSome(st, definition, roots));
    }
  }

  lemma MarkedIsActive(g: Graph, run: GraphRunRecord, records: NodeRecords, node: Name)
    requires g.Valid() && node in g.index
    ensures Marked(g, run, records, node).state == RunActive
  {
  }

  lemma AtomicStore(g: Graph, st: Store)
    requires g.Valid() && AtomicInv(g, st)
    ensures StoreInv(g, st)
  {
  }

  lemma RerunKeeps(g: Graph, st: Store, node: Name, request: Option<RequestId>)
    requires g.Valid() && AtomicInv(g, st)
    requires request.Some? ==> request.value !in st.requests
    ensures AtomicInv(g, RerunTo(g, st, node, request).0)
    ensures Later(st, RerunTo(g, st, node, request).0)
  {
    hide StoreInv, Marked, MaySubmit, Later, StateOf, StatesOf, SettledState, IsReady, Graph.Wired, Graph.Acyclic;
    AtomicStore(g, st);
    LaterReflexive(g, st);
    var (next, outcome) := RerunTo(g, st, node, request);
    if outcome.Submitted? || outcome.StillActive? {
      var run := st.run.value;
      var marked := Marked(g, run, st.records, node);
      ViewOfNow(g, st);
      MarkedKeeps(g, st, run, st.records, node);
      MarkedSupersedes(g, run, st.records, node);
      var mid := st.(run := Some(marked));
      var payload := Payload(st.records[node].definition,
                             UpstreamRecords(g.Get(node), CurrentRecords(marked, st.records)), request);
      MarkedIsActive(g, run, st.records, node);
      ViewMaySubmit(g, mid, marked, st.records, node, payload);
      SubmitKeeps(g, mid, RunId(node, NextCount(st.records, node)), payload);
      LaterTransitive(st, mid, next);
    }
  }

  /** A rerun cut after its mark. */
  lemma MarkKeeps(g: Graph, st: Store, node: Name)
    requires g.Valid() && AtomicInv(g, st)
    ensures AtomicInv(g, MarkTo(g, st, node))
    ensures Later(st, MarkTo(g, st, node))
  {
    hide StoreInv, Marked, Later, StateOf, StatesOf, IsReady, CurrentRecords, UpstreamRecords, Submit;
    AtomicStore(g, st);
    LaterReflexive(g, st);
    if MarkTo(g, st, node) != st {
      ViewOfNow(g, st);
      MarkedKeeps(g, st, st.run.value, st.records, node);
      MarkedIsActive(g, st.run.value, st.records, node);
    }
  }

  lemma SubmitReadyKeepsRun(g: Graph, st: Store, candidates: set<Name>)
    requires g.Valid() && st.run.Some? && candidates <= g.index.Keys
    ensures var mid := SubmitReady(g, st, st.run.value, candidates);
            mid.run == st.run && mid.records == st.records && mid.events == st.events
  {
    hide StateOf, StatesOf, ReadyInputs;
  }

  lemma CancelKeeps(g: Graph, st: Store)
    requires g.Valid() && AtomicInv(g, st)
    ensures AtomicInv(g, CancelTo(st))
    ensures Later(st, CancelTo(st))
  {
    LaterReflexive(g, st);
    if IsActive(st) {
      PutRunKeeps(g, st, st.run.value.(state := RunCancelled, settledAt := Some(st.clock)));
    }
  }

  lemma RecordRequestKeeps(g: Graph, st: Store, next: Store, id: RequestId, outcome: RequestOutcome)
    requires g.Valid() && AtomicInv(g, next) && Later(st, next) && id !in st.requests
    ensures AtomicInv(g, RecordRequest(next, id, outcome))
    ensures Later(st, RecordRequest(next, id, outcome))
  {
  }

  lemma RequestKeeps(g: Graph, st: Store, id: RequestId, request: Request)
    requires g.Valid() && AtomicInv(g, st)
    ensures AtomicInv(g, RequestTo(g, st, id, request))
    ensures Later(st, RequestTo(g, st, id, request))
  {
    LaterReflexive(g, st);
    if id !in st.requests {
      match request
      case StartRequest(definition) =>
        StartKeeps(g, st, definition, g.Roots());
        RecordRequestKeeps(g, st, StartTo(g, st, definition), id, Started(st.run == None));
      case RerunRequest(node) =>
        var (next, outcome) := RerunTo(g, st, node, Some(id));
        RerunKeeps(g, st, node, Some(id));
        if !outcome.Submitted? {
          RecordRequestKeeps(g, st, next, id, Refused(Refusal(outcome)));
        }
      case CancelRequest =>
        CancelKeeps(g, st);
        RecordRequestKeeps(g, st, CancelTo(st), id, CancelledRun);
        RecordRequestKeeps(g, st, st, id, Refused("the run is not active"));
    }
  }

  /** A termination, an acknowledged event and the clock. */
  lemma EnvironmentKeeps(g: Graph, st: Store, a: Action)
    requires g.Valid() && AtomicInv(g, st) && (a.Terminated? || a.Acknowledge? || a.Tick?)
    ensures AtomicInv(g, Do(g, st, a))
    ensures Later(st, Do(g, st, a))
  {
    hide StateOf, StatesOf, SettledState, CurrentRecords, StoreInv, Later;
    AtomicStore(g, st);
    LaterReflexive(g, st);
    if a.Terminated? && a.run in st.active && a.run in st.submitted {
      TerminateKeeps(g, st, a.run, a.status, a.output, a.error);
    } else {
      SameFacts(g, st, Do(g, st, a));
    }
  }

  /** Nothing that the invariant reads has changed. */
  lemma SameFacts(g: Graph, st: Store, next: Store)
    requires g.Valid() && AtomicInv(g, st) && Later(st, st)
    requires next == st.(events := next.events, clock := next.clock)
    ensures AtomicInv(g, next) && Later(st, next)
  {
    hide StateOf, StatesOf, SettledState, CurrentRecords, PayloadOk, UnrecordedRunId;
  }

  /** An advance cut before its settle. */
  lemma SubmitsKeep(g: Graph, st: Store, candidates: set<Name>)
    requires g.Valid() && AtomicInv(g, st) && IsActive(st) && candidates <= g.index.Keys
    ensures AtomicInv(g, SubmitReady(g, st, st.run.value, candidates))
    ensures Later(st, SubmitReady(g, st, st.run.value, candidates))
  {
    hide StoreInv, Later, StateOf, StatesOf, SettledState, CurrentRecords, SubmitReady;
    SubmitReadyKeeps(g, st, candidates);
    SubmitReadyKeepsRun(g, st, candidates);
  }

  lemma DoKeeps(g: Graph, st: Store, a: Action)
    requires g.Valid() && AtomicInv(g, st)
    ensures AtomicInv(g, Do(g, st, a))
    ensures Later(st, Do(g, st, a))
  {
    hide StateOf, StatesOf, SettledState, CurrentRecords, AtomicInv, StoreInv, Later, AdvanceTo, SubmitReady, RerunTo, MarkTo;
    AtomicStore(g, st);
    LaterReflexive(g, st);
    match a
    case Start(definition) => StartKeeps(g, st, definition, g.Roots());
    case Event(n) =>
      if n in st.events && IsActive(st) && n in g.index {
        AdvanceKeeps(g, st, g.Get(n).downstreams);
      }
    case Reconcile =>
      if IsActive(st) {
        AdvanceKeeps(g, st, g.index.Keys);
      }
    case RerunOf(n) => RerunKeeps(g, st, n, None);
    case Cancel => CancelKeeps(g, st);
    case Deliver(id, request) => RequestKeeps(g, st, id, request);
    case Terminated(_, _, _, _) => EnvironmentKeeps(g, st, a);
    case Acknowledge(_) => EnvironmentKeeps(g, st, a);
    case Tick => EnvironmentKeeps(g, st, a);
    case StartCut(definition, roots) =>
      if roots <= g.Roots() {
        StartKeeps(g, st, definition, roots);
      }
    case AdvanceCut(candidates) =>
      if IsActive(st) && candidates <= g.index.Keys {
        SubmitsKeep(g, st, candidates);
      }
    case RerunCut(n) => MarkKeeps(g, st, n);
  }

  lemma {:induction false} PerformKeeps(g: Graph, st: Store, actions: seq<Action>)
    requires g.Valid() && AtomicInv(g, st)
    ensures AtomicInv(g, Perform(g, st, actions))
    ensures Later(st, Perform(g, st, actions))
    decreases |actions|
  {
    LaterReflexive(g, st);
    if actions != [] {
      var next := Do(g, st, actions[0]);
      DoKeeps(g, st, actions[0]);
      PerformKeeps(g, next, actions[1..]);
      LaterTransitive(st, next, Perform(g, st, actions));
    }
  }
}
