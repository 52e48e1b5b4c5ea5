/**
 A rerun of a succeeded node of a settled run: the nodes of its scope wait for new
 upstream records, and a run that completes again has rebuilt exactly the scope.
 */
module RerunLaws {
  import opened Wrappers
  import opened Json
  import opened Records
  import opened Graphs
  import opened Readiness
  import opened ReadinessLaws
  import opened Scopes
  import opened Store
  import opened RunRules
  import opened RunLaws
  import opened Handlers
  import opened Settlement

  /** `x` is rerun in the settled run of `st` after a current succeeded record. */
  ghost predicate Reruns(g: Graph, st: Store, x: Name, request: Option<RequestId>)
    requires g.Valid()
  {
    && AtomicInv(g, st) && IsSettled(st) && HasSucceeded(g, st, x)
    && RerunTo(g, st, x, request).1.Submitted?
    && (request.Some? ==> request.value !in st.requests)
  }

  predicate HasSucceeded(g: Graph, st: Store, x: Name) {
    && x in g.index && st.run.Some? && x in st.records
    && st.records[x].status == Succeeded && st.run.value.IsCurrent(x, st.records[x])
  }

  ghost function Rerun(g: Graph, st: Store, x: Name, request: Option<RequestId>): Store
    requires g.Valid()
  {
    RerunTo(g, st, x, request).0
  }

  /** `records` has a record of `u` that is newer than the one in `old_`. */
  predicate IsNewer(old_: NodeRecords, records: NodeRecords, u: Name) {
    u in records && (u in old_ ==> old_[u].rerun < records[u].rerun)
  }

  /** The rerun submits the next instance of its node, and nothing else. */
  lemma RerunSubmitsOne(g: Graph, st: Store, x: Name, request: Option<RequestId>)
    requires g.Valid() && Reruns(g, st, x, request)
    ensures var next, id := Rerun(g, st, x, request), RunId(x, st.records[x].rerun + 1);
            && next.run == Some(Marked(g, st.run.value, st.records, x))
            && next.records == st.records && next.active == {id}
            && next.submitted.Keys == st.submitted.Keys + {id}
            && forall other :: other in st.submitted ==> next.submitted[other] == st.submitted[other]
  {
    hide StoreInv, Marked, IsReady, StatesOf, SettledState, CurrentRecords, UpstreamRecords, Graph.Valid;
  }

  /** Marking the scope does not change the readiness of the rerun node itself. */
  lemma RerunKeepsOwnReadiness(g: Graph, run: GraphRunRecord, records: NodeRecords, x: Name)
    requires g.Valid() && x in g.index
    ensures IsReady(g.Get(x), CurrentRecords(Marked(g, run, records, x), records))
        <==> IsReady(g.Get(x), CurrentRecords(run, records))
  {
    var marked := Marked(g, run, records, x);
    forall u | u in g.Get(x).upstreams
      ensures marked.Expected(u) == run.Expected(u)
    {
      RankDecreases(g, x, u);
      if InScope(g, x, u) {
        ScopeIsDownstream(g, x, u);
      }
    }
    var before, after := CurrentRecords(run, records), CurrentRecords(marked, records);
    assert forall u :: u in g.Get(x).upstreams ==> (u in before <==> u in after);
  }

  /** After the mark, a recorded scope node has a current record only when it is newer. */
  lemma CurrentIsNewer(g: Graph, st: Store, x: Name, later: Store, run: GraphRunRecord, u: Name)
    requires g.Valid() && HasSucceeded(g, st, x)
    requires Expects(Marked(g, st.run.value, st.records, x), run, later.records)
    requires u in ScopeOf(g, x) && u in CurrentRecords(run, later.records)
    ensures IsNewer(st.records, later.records, u)
  {
    if u in st.records {
      assert u in Marked(g, st.run.value, st.records, x).expectedReruns;
    }
  }

  /** A scope node other than the rerun node is ready only once every upstream in
      the scope has a record newer than before the rerun. */
  lemma ReadyNeedsNewerUpstreams(g: Graph, st: Store, x: Name, later: Store, run: GraphRunRecord, y: Name)
    requires g.Valid() && HasSucceeded(g, st, x)
    requires Expects(Marked(g, st.run.value, st.records, x), run, later.records)
    requires y in ScopeOf(g, x) && y != x && IsReady(g.Get(y), CurrentRecords(run, later.records))
    ensures forall u :: u in g.Get(y).upstreams && u in ScopeOf(g, x) ==>
              && u in CurrentRecords(run, later.records)
              && IsNewer(st.records, later.records, u)
    ensures exists u :: u in g.Get(y).upstreams && u in ScopeOf(g, x)
  {
    forall u | u in g.Get(y).upstreams && u in ScopeOf(g, x)
      ensures u in CurrentRecords(run, later.records) && IsNewer(st.records, later.records, u)
    {
      CurrentIsNewer(g, st, x, later, run, u);
    }
    var u :| u in g.Get(y).upstreams && InScope(g, x, u);
    assert u in ScopeOf(g, x);
  }

  lemma RerunFollows(g: Graph, st: Store, x: Name, request: Option<RequestId>, actions: seq<Action>)
    requires g.Valid() && Reruns(g, st, x, request)
    ensures var later := Perform(g, Rerun(g, st, x, request), actions);
            && AtomicInv(g, later) && later.run.Some?
            && SeenRun(Marked(g, st.run.value, st.records, x), later)
            && Seen(st.records, later.records)
  {
    RerunKeeps(g, st, x, request);
    RerunSubmitsOne(g, st, x, request);
    hide Marked, RerunTo, AtomicInv;
    PerformKeeps(g, Rerun(g, st, x, request), actions);
  }

  /** Right after the rerun, no other node of the scope is ready, and at any later
      time one is ready only with newer records of its upstreams in the scope. */
  lemma RerunHoldsBackItsScope(g: Graph, st: Store, x: Name, request: Option<RequestId>,
                               actions: seq<Action>, y: Name)
    requires g.Valid() && Reruns(g, st, x, request) && y in ScopeOf(g, x) && y != x
    ensures var later := Perform(g, Rerun(g, st, x, request), actions);
            && later.run.Some?
            && (CurrentStates(g, later)[y] == Ready ==>
                  forall u :: u in g.Get(y).upstreams && u in ScopeOf(g, x) ==>
                    IsNewer(st.records, later.records, u))
            && (actions == [] ==> CurrentStates(g, later)[y] != Ready)
  {
    RerunFollows(g, st, x, request, actions);
    RerunSubmitsOne(g, st, x, request);
    var later := Perform(g, Rerun(g, st, x, request), actions);
    hide Marked, AtomicInv, StateOf, IsReady, RerunTo, ScopeOf;
    var current := CurrentRecords(later.run.value, later.records);
    StateReads(g, current, y);
    UnrecordedState(g, current, y);
    if CurrentStates(g, later)[y] == Ready {
      ReadyNeedsNewerUpstreams(g, st, x, later, later.run.value, y);
    }
  }

  // ---- The instances submitted after the rerun ----

  /** Every instance of a scope node submitted after the rerun, but the rerun itself,
      has newer records of its upstreams in the scope as its input. */
  ghost predicate NewInputs(g: Graph, st: Store, x: Name, later: Store)
    requires g.Valid() && x in g.index
  {
    forall id {:trigger id in later.submitted} ::
      id in later.submitted && id !in st.submitted && id.node in ScopeOf(g, x) && id.node != x ==>
        forall u :: u in g.Get(id.node).upstreams && u in ScopeOf(g, x) ==>
          IsNewer(st.records, later.submitted[id].upstreams, u)
  }

  lemma SubmitHasNewInputs(g: Graph, st: Store, x: Name, later: Store, run: GraphRunRecord, id: RunId, payload: Payload)
    requires g.Valid() && HasSucceeded(g, st, x)
    requires Expects(Marked(g, st.run.value, st.records, x), run, later.records)
    requires id.node in ScopeOf(g, x) && id.node != x
    requires IsReady(g.Get(id.node), CurrentRecords(run, later.records))
    requires payload.upstreams == UpstreamRecords(g.Get(id.node), CurrentRecords(run, later.records))
    ensures forall u :: u in g.Get(id.node).upstreams && u in ScopeOf(g, x) ==>
              IsNewer(st.records, payload.upstreams, u)
  {
    hide Marked, ScopeOf;
    ReadyNeedsNewerUpstreams(g, st, x, later, run, id.node);
  }

  lemma AdvanceHasNewInputs(g: Graph, st: Store, x: Name, later: Store, candidates: set<Name>)
    requires g.Valid() && HasSucceeded(g, st, x)
    requires later.run.Some? && SeenRun(Marked(g, st.run.value, st.records, x), later)
    requires NewInputs(g, st, x, later) && candidates <= g.index.Keys
    ensures NewInputs(g, st, x, SubmitReady(g, later, later.run.value, candidates))
    ensures NewInputs(g, st, x, AdvanceTo(g, later, candidates))
  {
    hide Marked, StateOf, IsReady, ScopeOf, StatesOf, SettledState, NewInputs, CurrentRecords, UpstreamRecords;
    var run := later.run.value;
    var inputs := ReadyInputs(g, run, later.records, candidates);
    var next := SubmitAll(later, inputs);
    forall id | id in inputs && id.node in ScopeOf(g, x) && id.node != x
      ensures forall u :: u in g.Get(id.node).upstreams && u in ScopeOf(g, x) ==>
                IsNewer(st.records, inputs[id].upstreams, u)
    {
      assert id in ReadyRuns(g, run, later.records, candidates);
      StateReads(g, CurrentRecords(run, later.records), id.node);
      UnrecordedState(g, CurrentRecords(run, later.records), id.node);
      SubmitHasNewInputs(g, st, x, later, run, id, inputs[id]);
    }
    SubmittedHaveNewInputs(g, st, x, later, inputs);
    SameSubmits(g, st, x, next, AdvanceTo(g, later, candidates));
  }

  lemma SubmittedHaveNewInputs(g: Graph, st: Store, x: Name, later: Store, inputs: map<RunId, Payload>)
    requires g.Valid() && x in g.index && NewInputs(g, st, x, later)
    requires forall id :: id in inputs ==> id.node in g.index
    requires forall id :: id in inputs && id.node in ScopeOf(g, x) && id.node != x ==>
               forall u :: u in g.Get(id.node).upstreams && u in ScopeOf(g, x) ==>
                 IsNewer(st.records, inputs[id].upstreams, u)
    ensures NewInputs(g, st, x, SubmitAll(later, inputs))
  {
    hide ScopeOf, IsNewer;
  }

  lemma RerunHasNewInputs(g: Graph, st: Store, x: Name, later: Store, y: Name, request: Option<RequestId>)
    requires g.Valid() && HasSucceeded(g, st, x)
    requires StoreInv(g, later) && later.run.Some? && SeenRun(Marked(g, st.run.value, st.records, x), later)
    requires NewInputs(g, st, x, later)
    ensures NewInputs(g, st, x, RerunTo(g, later, y, request).0)
  {
    hide Marked, IsReady, ScopeOf, RerunTo, StoreInv, Later, View, Expects, Graph.Valid;
    RerunInput(g, later, y, request);
    var (next, outcome) := RerunTo(g, later, y, request);
    if outcome.Submitted? && y in ScopeOf(g, x) && y != x {
      var marked := Marked(g, later.run.value, later.records, y);
      ViewOfNow(g, later);
      MarkedKeeps(g, later, later.run.value, later.records, y);
      SeenRunStays(Marked(g, st.run.value, st.records, x), later, later.(run := Some(marked)));
      SubmitHasNewInputs(g, st, x, later, marked, outcome.id, next.submitted[outcome.id]);
    }
  }

  /** What a rerun submits, when it submits. */
  lemma RerunInput(g: Graph, st: Store, y: Name, request: Option<RequestId>)
    requires g.Valid() && st.run.Some?
    ensures var (next, outcome) := RerunTo(g, st, y, request);
            if !outcome.Submitted? then next.submitted == st.submitted
            else
              && y in g.index && y in st.records && outcome.id.node == y && outcome.id !in st.submitted
              && var current := CurrentRecords(Marked(g, st.run.value, st.records, y), st.records);
              && IsReady(g.Get(y), current)
              && next.submitted == st.submitted[outcome.id := Payload(st.records[y].definition,
                                                                      UpstreamRecords(g.Get(y), current), request)]
  {
    hide Marked, IsReady, CurrentRecords, UpstreamRecords;
  }

  lemma SameSubmits(g: Graph, st: Store, x: Name, later: Store, next: Store)
    requires g.Valid() && x in g.index && NewInputs(g, st, x, later) && next.submitted == later.submitted
    ensures NewInputs(g, st, x, next)
  {
  }

  lemma ActionHasNewInputs(g: Graph, st: Store, x: Name, later: Store, a: Action)
    requires g.Valid() && HasSucceeded(g, st, x)
    requires AtomicInv(g, later) && later.run.Some? && SeenRun(Marked(g, st.run.value, st.records, x), later)
    requires NewInputs(g, st, x, later)
    ensures NewInputs(g, st, x, Do(g, later, a))
  {
    hide StoreInv, SettledInv, Marked, NewInputs, RerunTo, AdvanceTo, Expects;
    var next := Do(g, later, a);
    match a
    case Event(n) =>
      if n in later.events && IsActive(later) && n in g.index {
        AdvanceHasNewInputs(g, st, x, later, g.Get(n).downstreams);
      }
    case Reconcile =>
      if IsActive(later) {
        AdvanceHasNewInputs(g, st, x, later, g.index.Keys);
      }
    case AdvanceCut(candidates) =>
      if IsActive(later) && candidates <= g.index.Keys {
        AdvanceHasNewInputs(g, st, x, later, candidates);
      }
    case RerunOf(y) => RerunHasNewInputs(g, st, x, later, y, None);
    case Deliver(_, _) => DeliveryHasNewInputs(g, st, x, later, a);
    case _ =>
      OthersSubmitNothing(g, later, a);
      SameSubmits(g, st, x, later, next);
  }

  lemma OthersSubmitNothing(g: Graph, later: Store, a: Action)
    requires g.Valid() && later.run.Some?
    requires !a.Event? && !a.Reconcile? && !a.AdvanceCut? && !a.RerunOf? && !a.Deliver?
    ensures Do(g, later, a).submitted == later.submitted
  {
    hide RerunTo, AdvanceTo, ReconcileTo;
  }

  lemma DeliveryHasNewInputs(g: Graph, st: Store, x: Name, later: Store, a: Action)
    requires g.Valid() && HasSucceeded(g, st, x) && a.Deliver?
    requires AtomicInv(g, later) && later.run.Some? && SeenRun(Marked(g, st.run.value, st.records, x), later)
    requires NewInputs(g, st, x, later)
    ensures NewInputs(g, st, x, Do(g, later, a))
  {
    hide StoreInv, SettledInv, Marked, NewInputs, RerunTo, Expects;
    var next, request := Do(g, later, a), a.request;
    if a.id !in later.requests && request.RerunRequest? {
      RerunHasNewInputs(g, st, x, later, request.node, Some(a.id));
      SameSubmits(g, st, x, RerunTo(g, later, request.node, Some(a.id)).0, next);
    } else {
      SameSubmits(g, st, x, later, next);
    }
  }

  lemma {:induction false} ActionsHaveNewInputs(g: Graph, st: Store, x: Name, later: Store, actions: seq<Action>)
    requires g.Valid() && HasSucceeded(g, st, x)
    requires AtomicInv(g, later) && later.run.Some? && SeenRun(Marked(g, st.run.value, st.records, x), later)
    requires NewInputs(g, st, x, later)
    ensures NewInputs(g, st, x, Perform(g, later, actions))
    decreases |actions|
  {
    if actions != [] {
      hide AtomicInv, Marked, NewInputs, Do;
      ActionHasNewInputs(g, st, x, later, actions[0]);
      DoKeeps(g, later, actions[0]);
      SeenRunStays(Marked(g, st.run.value, st.records, x), later, Do(g, later, actions[0]));
      ActionsHaveNewInputs(g, st, x, Do(g, later, actions[0]), actions[1..]);
    }
  }

  // ---- The nodes out of the scope ----

  /** The nodes out of the scope with a current record keep it, and do not run. */
  ghost predicate Untouched(g: Graph, st: Store, x: Name, later: Store)
    requires g.Valid() && x in g.index && st.run.Some?
  {
    && later.run.Some?
    && (forall z {:trigger z in CurrentRecords(st.run.value, st.records)} ::
          z in CurrentRecords(st.run.value, st.records) && z !in ScopeOf(g, x) ==>
          && z in CurrentRecords(later.run.value, later.records)
          && later.records[z] == st.records[z])
    && (forall id {:trigger id in later.active} :: id in later.active ==>
          !(id.node in CurrentRecords(st.run.value, st.records) && id.node !in ScopeOf(g, x)))
  }

  lemma MarkedLeavesOthers(g: Graph, run: GraphRunRecord, records: NodeRecords, x: Name, z: Name)
    requires g.Valid() && x in g.index && z !in ScopeOf(g, x)
    ensures Marked(g, run, records, x).Expected(z) == run.Expected(z)
  {
  }

  lemma RerunLeavesOthers(g: Graph, st: Store, x: Name, request: Option<RequestId>)
    requires g.Valid() && Reruns(g, st, x, request)
    ensures Untouched(g, st, x, Rerun(g, st, x, request))
  {
    hide RerunTo, AtomicInv, IsReady, ScopeOf, Graph.Valid, Marked;
    RerunSubmitsOne(g, st, x, request);
    var run := st.run.value;
    forall z | z !in ScopeOf(g, x)
      ensures Marked(g, run, st.records, x).Expected(z) == run.Expected(z)
    {
      MarkedLeavesOthers(g, run, st.records, x, z);
    }
  }

  lemma AdvanceLeavesOthers(g: Graph, st: Store, x: Name, later: Store, candidates: set<Name>)
    requires g.Valid() && x in g.index && st.run.Some? && Untouched(g, st, x, later)
    requires candidates <= g.index.Keys
    ensures Untouched(g, st, x, SubmitReady(g, later, later.run.value, candidates))
    ensures Untouched(g, st, x, AdvanceTo(g, later, candidates))
  {
    hide StateOf, ScopeOf;
    var run := later.run.value;
    var next := AdvanceTo(g, later, candidates);
    if CanSettle(g, SubmitReady(g, later, run, candidates), run) {
      PruneKeepsCurrent(run, later.records, next.run.value.state, later.clock);
    }
    forall id | id in next.active && id !in later.active
      ensures id.node !in CurrentRecords(run, later.records)
    {
      assert id in ReadyRuns(g, run, later.records, candidates);
      UnrecordedState(g, CurrentRecords(run, later.records), id.node);
    }
  }

  lemma ActionLeavesOthers(g: Graph, st: Store, x: Name, later: Store, a: Action)
    requires g.Valid() && x in g.index && st.run.Some? && Untouched(g, st, x, later) && !IsRerun(a)
    ensures Untouched(g, st, x, Do(g, later, a))
  {
    hide ScopeOf, StateOf, StatesOf, SubmitReady, AdvanceTo;
    match a
    case Event(n) =>
      if n in later.events && IsActive(later) && n in g.index {
        AdvanceLeavesOthers(g, st, x, later, g.Get(n).downstreams);
      }
    case Reconcile =>
      if IsActive(later) {
        AdvanceLeavesOthers(g, st, x, later, g.index.Keys);
      }
    case AdvanceCut(candidates) =>
      if IsActive(later) && candidates <= g.index.Keys {
        AdvanceLeavesOthers(g, st, x, later, candidates);
      }
    case _ => OtherActionLeavesOthers(g, st, x, later, a);
  }

  lemma OtherActionLeavesOthers(g: Graph, st: Store, x: Name, later: Store, a: Action)
    requires g.Valid() && x in g.index && st.run.Some? && Untouched(g, st, x, later) && !IsRerun(a)
    requires !a.Event? && !a.Reconcile? && !a.AdvanceCut?
    ensures Untouched(g, st, x, Do(g, later, a))
  {
    hide ScopeOf, SubmitReady, AdvanceTo, ReconcileTo, RerunTo;
  }

  lemma {:induction false} ActionsLeaveOthers(g: Graph, st: Store, x: Name, later: Store, actions: seq<Action>)
    requires g.Valid() && x in g.index && st.run.Some? && Untouched(g, st, x, later)
    requires forall a :: a in actions ==> !IsRerun(a)
    ensures Untouched(g, st, x, Perform(g, later, actions))
    decreases |actions|
  {
    if actions != [] {
      hide Untouched, Do;
      assert actions[0] in actions;
      ActionLeavesOthers(g, st, x, later, actions[0]);
      ActionsLeaveOthers(g, st, x, Do(g, later, actions[0]), actions[1..]);
    }
  }

  // ---- The rebuilt run ----

  lemma NewerWasSubmittedLater(g: Graph, st: Store, id: RunId)
    requires StoreInv(g, st) && st.active == {}
    requires id.node in st.records ==> st.records[id.node].rerun < id.rerun
    ensures id !in st.submitted
  {
  }

  /** A rerun of a succeeded node of a settled run, after which the run completes
      without a further rerun: every recorded node of the scope has a newer record,
      each but the rerun node's from newer records of its upstreams in the scope,
      and a current record out of the scope is untouched. */
  lemma RerunRebuildsItsScope(g: Graph, st: Store, x: Name, request: Option<RequestId>, actions: seq<Action>)
    requires g.Valid() && Reruns(g, st, x, request)
    requires forall a :: a in actions ==> !IsRerun(a)
    requires var end := Perform(g, Rerun(g, st, x, request), actions);
             end.run.Some? && end.run.value.state == RunComplete
    ensures var end := Perform(g, Rerun(g, st, x, request), actions);
            && (forall y :: y in ScopeOf(g, x) ==> IsNewer(st.records, end.records, y))
            && (forall y, u :: (y in ScopeOf(g, x) && y != x && u in g.Get(y).upstreams && u in ScopeOf(g, x)) ==>
                  && RunId(y, end.records[y].rerun) in end.submitted
                  && IsNewer(st.records, end.submitted[RunId(y, end.records[y].rerun)].upstreams, u))
            && (forall z :: z in CurrentRecords(st.run.value, st.records) && z !in ScopeOf(g, x) ==>
                  z in end.records && end.records[z] == st.records[z])
  {
    var next := Rerun(g, st, x, request);
    var end := Perform(g, next, actions);
    RerunFollows(g, st, x, request, []);
    RerunFollows(g, st, x, request, actions);
    FirstInputs(g, st, x, request);
    ActionsHaveNewInputs(g, st, x, next, actions);
    RerunLeavesOthers(g, st, x, request);
    ActionsLeaveOthers(g, st, x, next, actions);
    hide Marked, RerunTo, StateOf, ScopeOf;
    SettledExactlyWithoutReadyNodes(g, CurrentRecords(end.run.value, end.records));
    forall y | y in ScopeOf(g, x)
      ensures IsNewer(st.records, end.records, y)
      ensures RunId(y, end.records[y].rerun) in end.submitted
      ensures RunId(y, end.records[y].rerun) !in st.submitted
    {
      assert y in CurrentRecords(end.run.value, end.records);
      CurrentIsNewer(g, st, x, end, end.run.value, y);
      RecordedWasSubmitted(end, y);
      NewerWasSubmittedLater(g, st, RunId(y, end.records[y].rerun));
    }
  }

  lemma FirstInputs(g: Graph, st: Store, x: Name, request: Option<RequestId>)
    requires g.Valid() && Reruns(g, st, x, request)
    ensures NewInputs(g, st, x, Rerun(g, st, x, request))
  {
    RerunSubmitsOne(g, st, x, request);
    hide RerunTo, AtomicInv, Marked, ScopeOf;
  }
}
