/**
 What each handler does, over the fields of the store and the trigger rules of the
 nodes: when a rerun goes ahead, and which instances an advance submits.
 */
module HandlerLaws {
  import opened Wrappers
  import opened Json
  import opened Records
  import opened Graphs
  import opened Readiness
  import opened ReadinessLaws
  import opened Scopes
  import opened Store
  import opened RunRules
  import opened Handlers
  import S = Settlement
  import R = RerunLaws

  // ---- Reruns ----

  /** The run, the node and its record exist, and its upstreams satisfy its rule by the
      records that are current before the rerun. */
  predicate MayRun(g: Graph, st: Store, node: Name)
    requires g.Indexed()
  {
    && st.run.Some? && node in g.index && node in st.records
    && IsReady(g.Get(node), CurrentRecords(st.run.value, st.records))
  }

  /** A rerun goes ahead exactly when the node may run, whatever the status of its record,
      and otherwise changes nothing and says why. */
  lemma RerunGoesAheadExactly(g: Graph, st: Store, node: Name, request: Option<RequestId>)
    requires g.Valid()
    ensures var (next, outcome) := RerunTo(g, st, node, request);
            && (outcome == Unknown <==> st.run == None || node !in g.index)
            && (outcome == NoRecord <==> st.run.Some? && node in g.index && node !in st.records)
            && (outcome == NotReady <==> st.run.Some? && node in g.index && node in st.records
                                         && !MayRun(g, st, node))
            && (outcome.Submitted? || outcome.StillActive? <==> MayRun(g, st, node))
            && (!MayRun(g, st, node) ==> next == st)
  {
    hide IsReady, ScopeOf, Marked;
    if st.run.Some? && node in g.index {
      R.RerunKeepsOwnReadiness(g, st.run.value, st.records, node);
    }
  }

  /** What such a rerun leaves: the next count of the node is submitted, now or before,
      from the current records of its upstreams, and the run is active. */
  lemma RerunLeaves(g: Graph, st: Store, node: Name, request: Option<RequestId>)
    requires g.Valid() && MayRun(g, st, node)
    ensures var (next, outcome) := RerunTo(g, st, node, request);
            var id := RunId(node, st.records[node].rerun + 1);
            && outcome == (if id in st.submitted then StillActive(id) else RerunOutcome.Submitted(id))
            && next.run.Some? && next.run.value.state == RunActive && next.run.value.settledAt == None
            && next.records == st.records && next.events == st.events
            && next.submitted.Keys == st.submitted.Keys + {id}
            && (forall other :: other in st.submitted ==> next.submitted[other] == st.submitted[other])
            && next.active == (if id in st.submitted then st.active else st.active + {id})
            && (id !in st.submitted ==>
                  && next.submitted[id].definition == st.records[node].definition
                  && next.submitted[id].request == request
                  && IsInputOf(g, st, node, next.submitted[id].upstreams))
            && (request == None || id in st.submitted ==> next.requests == st.requests)
            && (request.Some? && id !in st.submitted ==>
                  next.requests == st.requests[request.value := RequestRecord(st.clock, RequestOutcome.Rerun(id))])
    ensures StoreInv(g, st) ==> (RunId(node, st.records[node].rerun + 1) in st.submitted
                                 <==> RunId(node, st.records[node].rerun + 1) in st.active)
  {
    hide IsReady, StoreInv;
    R.RerunKeepsOwnReadiness(g, st.run.value, st.records, node);
    MarkKeepsUpstreams(g, st.run.value, st.records, node);
    if StoreInv(g, st) {
      NextIsActive(g, st, node);
    }
  }

  /** The records of its upstreams, as far as they are current. */
  ghost predicate IsInputOf(g: Graph, st: Store, n: Name, upstreams: NodeRecords)
    requires g.Indexed() && n in g.index && st.run.Some?
  {
    && (forall u :: u in upstreams <==>
          u in g.Get(n).upstreams && u in st.records && st.records[u].rerun >= st.run.value.Expected(u))
    && forall u :: u in upstreams ==> u in st.records && upstreams[u] == st.records[u]
  }

  lemma MarkKeepsUpstreams(g: Graph, run: GraphRunRecord, records: NodeRecords, x: Name)
    requires g.Valid() && x in g.index
    ensures forall u :: u in g.Get(x).upstreams ==> Marked(g, run, records, x).Expected(u) == run.Expected(u)
  {
    forall u | u in g.Get(x).upstreams
      ensures Marked(g, run, records, x).Expected(u) == run.Expected(u)
    {
      RankDecreases(g, x, u);
      if InScope(g, x, u) {
        ScopeIsDownstream(g, x, u);
      }
    }
  }

  lemma NextIsActive(g: Graph, st: Store, n: Name)
    requires StoreInv(g, st) && n in st.records
    ensures RunId(n, st.records[n].rerun + 1) in st.submitted <==> RunId(n, st.records[n].rerun + 1) in st.active
  {
  }

  /** The counts that the run expects after such a rerun: past the record of every node of
      the scope when the record of the node was current and succeeded, and as before
      otherwise. */
  lemma RerunExpects(g: Graph, st: Store, node: Name, request: Option<RequestId>, n: Name)
    requires g.Valid() && MayRun(g, st, node)
    ensures var run, next := st.run.value, RerunTo(g, st, node, request).0.run;
            && next.Some?
            && next.value.Expected(n) ==
               if st.records[node].status == Succeeded && st.records[node].rerun >= run.Expected(node)
                  && n in ScopeOf(g, node) && n in st.records
               then st.records[n].rerun + 1 else run.Expected(n)
  {
    hide IsReady, ScopeOf;
    R.RerunKeepsOwnReadiness(g, st.run.value, st.records, node);
  }

  // ---- Advances ----

  /** The node has no current record and its upstreams satisfy its rule by the current
      records; `id` is its instance past the record. */
  predicate IsDue(g: Graph, st: Store, id: RunId)
    requires g.Indexed()
  {
    && st.run.Some? && id.node in g.index && id.rerun == NextCount(st.records, id.node)
    && (id.node in st.records ==> st.records[id.node].rerun < st.run.value.Expected(id.node))
    && IsReady(g.Get(id.node), CurrentRecords(st.run.value, st.records))
  }

  /** An advance over `candidates` submits exactly the due instances of candidates. */
  lemma AdvanceSubmitsExactly(g: Graph, st: Store, candidates: set<Name>)
    requires g.Valid() && st.run.Some? && candidates <= g.index.Keys
    ensures var next := AdvanceTo(g, st, candidates);
            && (forall id {:trigger id in next.submitted} ::
                  id in next.submitted <==> id in st.submitted || (id.node in candidates && IsDue(g, st, id)))
            && (forall id {:trigger id in next.active} ::
                  id in next.active <==>
                    id in st.active || (id !in st.submitted && id.node in candidates && IsDue(g, st, id)))
            && (forall id {:trigger next.submitted[id]} :: id in next.submitted ==>
                  if id in st.submitted then next.submitted[id] == st.submitted[id]
                  else next.submitted[id].definition == st.run.value.definition
                       && next.submitted[id].request == None
                       && IsInputOf(g, st, id.node, next.submitted[id].upstreams))
            && next.records == st.records && next.events == st.events && next.requests == st.requests
  {
    hide StateOf, IsReady, CanSettle, ReadyInputs, IsDue, IsInputOf;
    var inputs := ReadyInputs(g, st.run.value, st.records, candidates);
    InputsAreDue(g, st, candidates);
    assert AdvanceTo(g, st, candidates).submitted == SubmitAll(st, inputs).submitted;
  }

  lemma InputsAreDue(g: Graph, st: Store, candidates: set<Name>)
    requires g.Valid() && st.run.Some? && candidates <= g.index.Keys
    ensures var inputs := ReadyInputs(g, st.run.value, st.records, candidates);
            && (forall id {:trigger id in inputs} :: id in inputs <==> id.node in candidates && IsDue(g, st, id))
            && (forall id {:trigger inputs[id]} :: id in inputs ==>
                  && inputs[id].definition == st.run.value.definition && inputs[id].request == None
                  && IsInputOf(g, st, id.node, inputs[id].upstreams))
  {
    hide StateOf, IsReady;
    var run, inputs := st.run.value, ReadyInputs(g, st.run.value, st.records, candidates);
    forall id
      ensures id in inputs <==> id.node in candidates && IsDue(g, st, id)
    {
      if id.node in candidates {
        ReadyIsDue(g, st, id.node);
      }
    }
    forall id | id in inputs
      ensures IsInputOf(g, st, id.node, inputs[id].upstreams)
    {
      assert id in ReadyRuns(g, run, st.records, candidates);
      assert inputs[id] == PayloadOf(g, run, st.records, id.node);
    }
  }

  lemma ReadyIsDue(g: Graph, st: Store, n: Name)
    requires g.Valid() && st.run.Some? && n in g.index
    ensures StateOf(g, CurrentRecords(st.run.value, st.records), n) == Ready
            <==> IsDue(g, st, RunId(n, NextCount(st.records, n)))
  {
    hide StateOf, IsReady;
    StateReads(g, CurrentRecords(st.run.value, st.records), n);
    UnrecordedState(g, CurrentRecords(st.run.value, st.records), n);
  }

  /** The handling of an event of `n` submits exactly the due instances of the nodes that
      have `n` upstream, when the run is active. */
  lemma EventSubmitsExactly(g: Graph, st: Store, n: Name)
    requires g.Valid()
    ensures var next := EventTo(g, st, n);
            forall id {:trigger id in next.submitted} ::
              id in next.submitted <==>
                id in st.submitted
                || (st.run.Some? && st.run.value.state == RunActive && n in g.index
                    && id.node in g.index && n in g.Get(id.node).upstreams && IsDue(g, st, id))
  {
    hide AdvanceTo, IsReady;
    if IsActive(st) && n in g.index {
      AdvanceSubmitsExactly(g, st, g.Get(n).downstreams);
    }
  }

  /** A reconciler pass submits exactly the due instances of an active run. */
  lemma ReconcileSubmitsExactly(g: Graph, st: Store)
    requires g.Valid()
    ensures var next := ReconcileTo(g, st);
            forall id {:trigger id in next.submitted} ::
              id in next.submitted <==>
                id in st.submitted || (st.run.Some? && st.run.value.state == RunActive && IsDue(g, st, id))
  {
    hide AdvanceTo, IsReady;
    if IsActive(st) {
      AdvanceSubmitsExactly(g, st, g.index.Keys);
    }
  }

  /** An advance settles exactly when no node is ready by the current records and no
      instance is active; it is complete exactly when every node has a current succeeded
      record. The counts that records have reached are dropped, and the time is the
      clock's. */
  lemma AdvanceSettlesExactly(g: Graph, st: Store, candidates: set<Name>)
    requires g.Valid() && StoreInv(g, st) && IsActive(st) && candidates <= g.index.Keys
    ensures var run, next := st.run.value, AdvanceTo(g, st, candidates);
            var settles := st.active == {} && forall id :: !IsDue(g, st, id);
            && next.run.Some?
            && (!settles ==> next.run == st.run)
            && (settles ==>
                  && next.run.value.settledAt == Some(st.clock)
                  && next.run.value.definition == run.definition && next.run.value.requestedAt == run.requestedAt
                  && next.run.value.state ==
                     (if forall n :: n in g.index ==>
                           n in st.records && st.records[n].status == Succeeded && st.records[n].rerun >= run.Expected(n)
                      then RunComplete else RunFailed)
                  && forall n :: n in next.run.value.expectedReruns <==>
                       n in run.expectedReruns && (n in st.records ==> st.records[n].rerun < run.expectedReruns[n]))
  {
    hide StateOf, StatesOf, SettledState, IsReady, StoreInv, CurrentRecords, IsDue, CanSettle, SubmitReady;
    var run, current := st.run.value, CurrentRecords(st.run.value, st.records);
    SettlesWhenIdle(g, st, candidates);
    SettledExactlyWithoutReadyNodes(g, current);
    CurrentMeans(run, st.records);
    S.SubmitReadyKeepsRun(g, st, candidates);
  }

  lemma SettlesWhenIdle(g: Graph, st: Store, candidates: set<Name>)
    requires g.Valid() && StoreInv(g, st) && IsActive(st) && candidates <= g.index.Keys
    ensures var mid := SubmitReady(g, st, st.run.value, candidates);
            && (CanSettle(g, mid, st.run.value) <==> st.active == {} && forall id :: !IsDue(g, st, id))
            && (CanSettle(g, mid, st.run.value) ==>
                  mid == st && SettledState(StatesOf(g, CurrentRecords(st.run.value, st.records))).Some?)
  {
    hide StateOf, StatesOf, SettledState, IsReady, StoreInv, CurrentRecords, IsDue, SubmitReady;
    var run, current := st.run.value, CurrentRecords(st.run.value, st.records);
    var mid := SubmitReady(g, st, run, candidates);
    S.SubmitReadyKeeps(g, st, candidates);
    S.SubmitReadyKeepsRun(g, st, candidates);
    S.ScanFindsActive(g, mid);
    SettledExactlyWithoutReadyNodes(g, current);
    DueExactlyReady(g, st);
    if exists id :: IsDue(g, st, id) {
      assert !CanSettle(g, mid, run);
    } else {
      NothingDue(g, st, candidates);
    }
  }

  lemma DueExactlyReady(g: Graph, st: Store)
    requires g.Valid() && st.run.Some?
    ensures (exists id :: IsDue(g, st, id)) <==>
            exists n :: n in g.index && StateOf(g, CurrentRecords(st.run.value, st.records), n) == Ready
  {
    hide StateOf, IsReady, CurrentRecords;
    if id :| IsDue(g, st, id) {
      ReadyIsDue(g, st, id.node);
    }
    if n :| n in g.index && StateOf(g, CurrentRecords(st.run.value, st.records), n) == Ready {
      ReadyIsDue(g, st, n);
    }
  }

  lemma NothingDue(g: Graph, st: Store, candidates: set<Name>)
    requires g.Valid() && st.run.Some? && candidates <= g.index.Keys && forall id :: !IsDue(g, st, id)
    ensures SubmitReady(g, st, st.run.value, candidates) == st
  {
    hide StateOf, IsDue;
    InputsAreDue(g, st, candidates);
    assert ReadyInputs(g, st.run.value, st.records, candidates) == map[];
  }

  lemma CurrentMeans(run: GraphRunRecord, records: NodeRecords)
    ensures forall n :: n in CurrentRecords(run, records) <==>
                          n in records && records[n].rerun >= run.Expected(n)
    ensures forall n :: n in CurrentRecords(run, records) ==> CurrentRecords(run, records)[n] == records[n]
  {
  }

  // ---- Starts, cancels and requests ----

  /** A start creates the run exactly when there is none, active from the clock's time on,
      with the first instance of every node without upstreams. */
  lemma StartDoesExactly(g: Graph, st: Store, definition: string)
    requires g.Valid()
    ensures var next := StartTo(g, st, definition);
            && next.records == st.records && next.events == st.events && next.requests == st.requests
            && next.clock == st.clock
            && (st.run.Some? ==> next == st)
            && (st.run == None ==>
                  && next.run == Some(GraphRunRecord(definition, st.clock, RunActive, None, map[]))
                  && (forall id {:trigger id in next.submitted} ::
                        id in next.submitted <==>
                          id in st.submitted
                          || (id.node in g.index && g.Get(id.node).upstreams == {} && id.rerun == 0))
                  && (forall id {:trigger next.submitted[id]} :: id in next.submitted ==>
                        next.submitted[id] == if id in st.submitted then st.submitted[id]
                                              else Payload(definition, map[], None))
                  && (forall id {:trigger id in next.active} ::
                        id in next.active <==> id in st.active || (id in next.submitted && id !in st.submitted)))
  {
    hide Graph.Acyclic, Graph.Wired;
    var inputs := RootInputs(definition, g.Roots());
    forall id
      ensures id in inputs <==> id.node in g.index && g.Get(id.node).upstreams == {} && id.rerun == 0
    {
      assert id in FirstRuns(g.Roots()) <==> id.node in g.Roots() && id == RunId(id.node, 0);
    }
  }

  /** A cancel ends exactly an active run, at the clock's time, and leaves everything else. */
  lemma CancelDoesExactly(st: Store)
    ensures var next := CancelTo(st);
            if st.run.Some? && st.run.value.state == RunActive then
              && next.run.Some? && next.run.value.state == RunCancelled
              && next.run.value.settledAt == Some(st.clock)
              && next.run.value.expectedReruns == st.run.value.expectedReruns
              && next.run.value.definition == st.run.value.definition
              && next.run.value.requestedAt == st.run.value.requestedAt
              && next == st.(run := next.run)
            else next == st
  {
  }

  /** Why a rerun request is refused, or what it submits. */
  function RerunAnswer(g: Graph, st: Store, node: Name): RequestOutcome
    requires g.Indexed()
  {
    if st.run == None || node !in g.index then Refused("the run or the node does not exist")
    else if node !in st.records then Refused("the node does not have a record")
    else if !MayRun(g, st, node) then Refused("the node is not ready")
    else if RunId(node, st.records[node].rerun + 1) in st.submitted then Refused("the rerun is active")
    else Rerun(RunId(node, st.records[node].rerun + 1))
  }

  /** What the record of a request says, by the store before it. */
  function Answer(g: Graph, st: Store, request: Request): RequestOutcome
    requires g.Indexed()
  {
    match request
    case StartRequest(_) => Started(st.run == None)
    case RerunRequest(node) => RerunAnswer(g, st, node)
    case CancelRequest =>
      if st.run.Some? && st.run.value.state == RunActive then CancelledRun else Refused("the run is not active")
  }

  /** A delivery records the answer, at the clock's time, once: a request with a record
      changes nothing, and no other record changes. */
  lemma RequestRecordsExactly(g: Graph, st: Store, id: RequestId, request: Request)
    requires g.Valid()
    ensures var next := RequestTo(g, st, id, request);
            && (id in st.requests ==> next == st)
            && (id !in st.requests ==>
                  next.requests == st.requests[id := RequestRecord(st.clock, Answer(g, st, request))])
  {
    hide IsReady, Marked, RootInputs, MayRun;
    match request
    case RerunRequest(node) =>
      RerunGoesAheadExactly(g, st, node, Some(id));
      if MayRun(g, st, node) {
        RerunLeaves(g, st, node, Some(id));
      }
    case _ =>
  }

  /** Beside its record, a new request has the effect of its start, rerun or cancel. */
  lemma RequestTakesEffect(g: Graph, st: Store, id: RequestId, request: Request)
    requires g.Valid() && id !in st.requests
    ensures var next := RequestTo(g, st, id, request).(requests := st.requests);
            match request
            case StartRequest(definition) => next == StartTo(g, st, definition)
            case RerunRequest(node) => next == RerunTo(g, st, node, Some(id)).0.(requests := st.requests)
            case CancelRequest => next == CancelTo(st)
  {
    hide IsReady, Marked;
  }

  /** A cancel asks exactly the active instances to end, and the members of exactly the
      mapped nodes without a current succeeded record. */
  lemma CancelReachesExactly(g: Graph, st: Store)
    requires g.Valid() && StoreInv(g, st) && st.run.Some?
    ensures var run := st.run.value;
            && ActiveUnrecorded(g, st, run) == st.active
            && forall n :: n in MemberGroups(g, st.records, run) <==>
                 n in g.index && g.Get(n).spec.each.Some?
                 && !(n in st.records && st.records[n].status == Succeeded && st.records[n].rerun >= run.Expected(n))
  {
    hide StoreInv, Graph.Acyclic, Graph.Wired;
    S.ScanFindsActive(g, st);
  }
}
