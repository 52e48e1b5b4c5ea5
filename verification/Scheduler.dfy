/**
 The scheduler over the stored state of one graph run (swale/src/scheduler.rs,
 swale/src/hook.rs). Each method is one handler, run as one step.
 */
module Scheduler {
  import opened Wrappers
  import opened Json
  import opened Records
  import opened Graphs
  import opened Readiness
  import opened Scopes
  import opened Store
  import opened RunRules
  import opened Handlers

  class Scheduler {
    const graph: Graph
    var run: Option<GraphRunRecord>
    var records: NodeRecords
    var submitted: map<RunId, Payload>
    var active: set<RunId>
    var events: set<Name>
    var requests: map<RequestId, RequestRecord>
    var clock: nat

    ghost function State(): Store
      reads this
    {
      Store(run, records, submitted, active, events, requests, clock)
    }

    constructor (graph: Graph)
      ensures this.graph == graph && State() == Empty
    {
      this.graph := graph;
      run, records, submitted, active, events, requests, clock := None, map[], map[], {}, {}, map[], 0;
    }

    /** The idempotent submit of the runtime. */
    method SubmitNode(id: RunId, payload: Payload) returns (isNew: bool)
      modifies this
      ensures State() == Submit(old(State()), id, payload)
      ensures isNew == (id !in old(submitted))
    {
      isNew := id !in submitted;
      if isNew {
        submitted := submitted[id := payload];
        active := active + {id};
        if payload.request.Some? {
          requests := requests[payload.request.value := RequestRecord(clock, RequestOutcome.Rerun(id))];
        }
      }
    }

    /** The terminal hook: the record and the event commit with the termination. */
    method TerminateRun(id: RunId, status: RecordStatus, output: Option<Value>, error: Option<string>)
      requires id in active && id in submitted
      modifies this
      ensures State() == Terminate(old(State()), id, status, output, error)
    {
      var kept := if status == Succeeded then output else None;
      records := records[id.node := NodeRecord(status, submitted[id].definition, id.rerun, clock, kept, error)];
      active := active - {id};
      events := events + {id.node};
    }

    method StartRun(definition: string) returns (started: bool)
      requires graph.Valid()
      modifies this
      ensures State() == StartTo(graph, old(State()), definition)
      ensures started == (old(run) == None)
    {
      if run.Some? {
        return false;
      }
      CreateRun(definition);
      SubmitRoots(definition, graph.Roots());
      return true;
    }

    /** The put of a new run record. */
    method CreateRun(definition: string)
      modifies this
      ensures State() == old(State()).(run := Some(NewRun(definition, old(clock))))
    {
      run := Some(NewRun(definition, clock));
    }

    method SubmitRoots(definition: string, roots: set<Name>)
      modifies this
      ensures State() == SubmitAll(old(State()), RootInputs(definition, roots))
    {
      ghost var st := State();
      var todo := roots;
      ghost var done: set<Name> := {};
      while todo != {}
        invariant todo + done == roots
        invariant State() == SubmitAll(st, RootInputs(definition, done))
        decreases todo
      {
        var n :| n in todo;
        var _ := SubmitNode(RunId(n, 0), Payload(definition, map[], None));
        RootInputsGrow(definition, done, n);
        SubmitAllGrows(st, RootInputs(definition, done), RunId(n, 0), Payload(definition, map[], None));
        todo, done := todo - {n}, done + {n};
      }
      assert done == roots;
    }

    /** Submits the ready nodes among `candidates`, then settles the run. */
    method Advance(candidates: set<Name>) returns (count: nat, settled: bool)
      requires graph.Valid() && run.Some? && candidates <= graph.index.Keys
      modifies this
      ensures State() == AdvanceTo(graph, old(State()), candidates)
      ensures count == |submitted| - |old(submitted)|
      ensures settled == CanSettle(graph, SubmitReady(graph, old(State()), old(run).value, candidates), old(run).value)
    {
      hide StateOf, IsReady, CanBecomeReady;
      var states := NodeStates(graph, CurrentRecords(run.value, records));
      count := SubmitCandidates(candidates, states);
      settled := Settle(states);
    }

    method SubmitCandidates(candidates: set<Name>, states: map<Name, NodeState>) returns (count: nat)
      requires graph.Valid() && run.Some? && candidates <= graph.index.Keys
      requires states == StatesOf(graph, CurrentRecords(run.value, records))
      modifies this
      ensures State() == SubmitReady(graph, old(State()), old(run).value, candidates)
      ensures count == |submitted| - |old(submitted)|
    {
      hide StateOf, SubmitReady, Graph.Valid, Graph.Indexed, UpstreamRecords, CurrentRecords, PayloadOf, NextCount, Submit;
      ghost var st := State();
      count := 0;
      SubmitReadyNone(graph, st, run.value);
      var todo := candidates;
      ghost var done: set<Name> := {};
      while todo != {}
        invariant todo + done == candidates
        invariant run == st.run && records == st.records
        invariant State() == SubmitReady(graph, st, st.run.value, done)
        invariant count == |submitted| - |st.submitted|
        decreases todo
      {
        var n :| n in todo;
        SubmitReadyGrows(graph, st, run.value, done, n);
        var isNew := SubmitCandidate(n, states[n]);
        count := if isNew then count + 1 else count;
        todo, done := todo - {n}, done + {n};
      }
      assert done == candidates;
    }

    method SubmitCandidate(n: Name, state: NodeState) returns (isNew: bool)
      requires graph.Valid() && run.Some? && n in graph.index
      modifies this
      ensures State() == if state == Ready
                         then Submit(old(State()), RunId(n, NextCount(old(records), n)),
                                     PayloadOf(graph, old(run).value, old(records), n))
                         else old(State())
      ensures |submitted| == |old(submitted)| + (if isNew then 1 else 0)
      ensures run == old(run) && records == old(records)
    {
      if state != Ready {
        return false;
      }
      isNew := SubmitNode(RunId(n, NextCount(records, n)), PayloadOf(graph, run.value, records, n));
    }

    /** Writes the final state once no unrecorded instance is active. */
    method Settle(states: map<Name, NodeState>) returns (written: bool)
      requires graph.Valid() && run.Some? && states == StatesOf(graph, CurrentRecords(run.value, records))
      modifies this
      ensures State() == SettleTo(graph, old(State()), old(run).value)
      ensures written == CanSettle(graph, old(State()), old(run).value)
    {
      var state := SettledState(states);
      if state == None {
        return false;
      }
      var found := FindActiveUnrecorded();
      if found {
        return false;
      }
      CommitSettled(Settled(run.value, records, state.value, clock));
      return true;
    }

    /** The activity scan of the settle. */
    method FindActiveUnrecorded() returns (found: bool)
      requires graph.Indexed() && run.Some?
      ensures found == HasActiveUnrecorded(graph, State(), run.value)
    {
      for i := 0 to |graph.nodes|
        invariant forall n :: n in graph.index && graph.index[n] < i ==> !IsActiveUnrecorded(State(), run.value, n)
      {
        var n := graph.nodes[i].Name();
        var id := UnrecordedRunId(run.value, records, n);
        if id.Some? && id.value in active {
          assert IsActiveUnrecorded(State(), run.value, n);
          return true;
        }
      }
      return false;
    }

    method CommitSettled(settled: GraphRunRecord)
      modifies this
      ensures State() == old(State()).(run := Some(settled))
    {
      run := Some(settled);
    }

    /** The termination of a task instance of `n`: its downstreams may be ready. */
    method HandleEvent(n: Name)
      requires graph.Valid()
      modifies this
      ensures State() == EventTo(graph, old(State()), n)
    {
      if run == None || run.value.state != RunActive || n !in graph.index {
        return;
      }
      var _, _ := Advance(graph.Get(n).downstreams);
    }

    /** One reconciler pass over the graph run. */
    method Reconcile() returns (count: nat, settled: bool, cancelled: set<RunId>, groups: set<Name>)
      requires graph.Valid()
      modifies this
      ensures State() == ReconcileTo(graph, old(State()))
      ensures count == |submitted| - |old(submitted)|
      ensures old(run).Some? && old(run).value.state == RunCancelled ==>
                cancelled == ActiveUnrecorded(graph, old(State()), old(run).value)
                && groups == MemberGroups(graph, old(records), old(run).value)
    {
      count, settled, cancelled, groups := 0, false, {}, {};
      if run == None {
        return;
      }
      match run.value.state
      case RunActive => count, settled := Advance(graph.index.Keys);
      case RunCancelled => cancelled, groups := CancelActiveRuns(run.value);
      case _ =>
    }

    /** Runs `node` again at its next count when its upstreams satisfy its rule. */
    method RerunNode(node: Name, request: Option<RequestId>) returns (outcome: RerunOutcome)
      requires graph.Valid()
      modifies this
      ensures (State(), outcome) == RerunTo(graph, old(State()), node, request)
    {
      var refused := MarkForRerun(node);
      if refused.Some? {
        return refused.value;
      }
      var id := RunId(node, records[node].rerun + 1);
      var current := CurrentRecords(run.value, records);
      var isNew := SubmitNode(id, Payload(records[node].definition,
                                          UpstreamRecords(graph.Get(node), current), request));
      return if isNew then RerunOutcome.Submitted(id) else StillActive(id);
    }

    /** The reads of a rerun and its write of the run record, or why it is refused. */
    method MarkForRerun(node: Name) returns (refused: Option<RerunOutcome>)
      requires graph.Valid()
      modifies this
      ensures State() == MarkTo(graph, old(State()), node)
      ensures var outcome := RerunTo(graph, old(State()), node, None).1;
              refused == if outcome.Submitted? || outcome.StillActive? then None else Some(outcome)
    {
      if run == None || node !in graph.index {
        return Some(Unknown);
      }
      if node !in records {
        return Some(NoRecord);
      }
      var marked := MarkedRun(node);
      if !IsReady(graph.Get(node), CurrentRecords(marked, records)) {
        return Some(NotReady);
      }
      run := Some(marked);
      return None;
    }

    /** The active run record of a rerun, with the expected counts of its scope. */
    method MarkedRun(node: Name) returns (marked: GraphRunRecord)
      requires graph.Valid() && run.Some? && node in graph.index && node in records
      ensures marked == Marked(graph, run.value, records, node)
    {
      hide GraphRunRecord.IsCurrent, Graph.Valid, ScopeOf, NamesOf, NextCounts;
      marked := run.value.(state := RunActive, settledAt := None);
      if records[node].status != Succeeded || !run.value.IsCurrent(node, records[node]) {
        return;
      }
      var scope := RerunScope(graph, node);
      var expected := run.value.expectedReruns;
      NextCountsOfNone(scope, records, expected);
      for i := 0 to |scope|
        invariant expected == run.value.expectedReruns + NextCounts(NamesOf(scope[..i]), records)
      {
        var n := scope[i].Name();
        assert scope[..i + 1] == scope[..i] + [scope[i]];
        NextCountsGrow(scope[..i], scope[i], records, run.value.expectedReruns);
        if n in records {
          expected := expected[n := records[n].rerun + 1];
        }
      }
      assert scope[..|scope|] == scope;
      ScopeNames(graph, node);
      NextCountsListed(ScopeOf(graph, node), records);
      marked := marked.(expectedReruns := expected);
    }

    /** Cancels an active run; the instances still active are cancelled after the write,
        and so are the members of the mapped nodes. */
    method CancelRun() returns (done: bool, cancelled: set<RunId>, groups: set<Name>)
      requires graph.Valid()
      modifies this
      ensures State() == CancelTo(old(State()))
      ensures done == IsActive(old(State()))
      ensures done ==> cancelled == ActiveUnrecorded(graph, old(State()), old(run).value)
      ensures done ==> groups == MemberGroups(graph, old(records), old(run).value)
    {
      cancelled, groups := {}, {};
      if run == None || run.value.state != RunActive {
        return false, {}, {};
      }
      var before := run.value;
      CommitSettled(before.(state := RunCancelled, settledAt := Some(clock)));
      cancelled, groups := CancelActiveRuns(before);
      return true, cancelled, groups;
    }

    /** What a cancel asks to end: the active unrecorded instances, and the members of
        each mapped node that has an unrecorded instance, active or not. */
    method CancelActiveRuns(of: GraphRunRecord) returns (cancelled: set<RunId>, groups: set<Name>)
      requires graph.Indexed()
      ensures cancelled == ActiveUnrecorded(graph, State(), of)
      ensures groups == MemberGroups(graph, records, of)
    {
      cancelled, groups := {}, {};
      for i := 0 to |graph.nodes|
        invariant cancelled == set n | n in graph.index && graph.index[n] < i
                                    && IsActiveUnrecorded(State(), of, n)
                                  :: UnrecordedRunId(of, records, n).value
        invariant groups == set n | n in graph.index && graph.index[n] < i && HasMemberGroup(graph.Get(n), records, of)
      {
        var node := graph.nodes[i];
        var n := node.Name();
        assert graph.Get(n) == node;
        var id := UnrecordedRunId(of, records, n);
        if id.Some? {
          if id.value in active {
            assert IsActiveUnrecorded(State(), of, n);
            cancelled := cancelled + {id.value};
          }
          if node.spec.each.Some? {
            groups := groups + {n};
          }
        }
      }
    }

    /** One delivery of a request: its record, from now or from before. */
    method HandleRequest(id: RequestId, request: Request) returns (record: RequestRecord)
      requires graph.Valid()
      modifies this
      ensures State() == RequestTo(graph, old(State()), id, request)
      ensures id in requests && record == requests[id]
    {
      if id in requests {
        return requests[id];
      }
      match request
      case StartRequest(definition) =>
        var started := StartRun(definition);
        record := Record(id, Started(started));
      case RerunRequest(node) =>
        var outcome := RerunNode(node, Some(id));
        if outcome.Submitted? {
          return requests[id];
        }
        record := Record(id, Refused(Refusal(outcome)));
      case CancelRequest =>
        var done, _, _ := CancelRun();
        record := Record(id, if done then CancelledRun else Refused("the run is not active"));
    }

    method Record(id: RequestId, outcome: RequestOutcome) returns (record: RequestRecord)
      modifies this
      ensures State() == RecordRequest(old(State()), id, outcome)
      ensures record == requests[id]
    {
      record := RequestRecord(clock, outcome);
      requests := requests[id := record];
    }
  }

  function NextCounts(names: set<Name>, records: NodeRecords): map<Name, nat> {
    map n | n in names && n in records :: records[n].rerun + 1
  }

  function NamesOf(nodes: seq<Node>): set<Name> {
    set i | 0 <= i < |nodes| :: nodes[i].Name()
  }

  lemma NextCountsOfNone(nodes: seq<Node>, records: NodeRecords, expected: map<Name, nat>)
    ensures expected + NextCounts(NamesOf(nodes[..0]), records) == expected
  {
  }

  lemma NextCountsListed(names: set<Name>, records: NodeRecords)
    ensures NextCounts(names, records) == map n | n in names && n in records :: records[n].rerun + 1
  {
  }

  lemma NextCountsGrow(nodes: seq<Node>, last: Node, records: NodeRecords, expected: map<Name, nat>)
    ensures expected + NextCounts(NamesOf(nodes + [last]), records)
         == if last.Name() in records
            then (expected + NextCounts(NamesOf(nodes), records))[last.Name() := records[last.Name()].rerun + 1]
            else expected + NextCounts(NamesOf(nodes), records)
  {
    assert NamesOf(nodes + [last]) == NamesOf(nodes) + {last.Name()} by {
      assert (nodes + [last])[|nodes|] == last;
      assert forall i :: 0 <= i < |nodes| ==> (nodes + [last])[i] == nodes[i];
    }
  }

  lemma {:induction false} InOrderNames(nodes: seq<Node>, names: set<Name>)
    ensures NamesOf(InOrder(nodes, names)) == names * NamesOf(nodes)
  {
    if nodes != [] {
      InOrderNames(nodes[1..], names);
      var first, rest := if nodes[0].Name() in names then [nodes[0]] else [], InOrder(nodes[1..], names);
      NamesAppend(first, rest);
      NamesAppend([nodes[0]], nodes[1..]);
      assert nodes == [nodes[0]] + nodes[1..];
    }
  }

  lemma NamesAppend(a: seq<Node>, b: seq<Node>)
    ensures NamesOf(a + b) == NamesOf(a) + NamesOf(b)
  {
    forall n | n in NamesOf(b)
      ensures n in NamesOf(a + b)
    {
      var i :| 0 <= i < |b| && b[i].Name() == n;
      assert (a + b)[|a| + i] == b[i];
    }
    forall n | n in NamesOf(a)
      ensures n in NamesOf(a + b)
    {
      var i :| 0 <= i < |a| && a[i].Name() == n;
      assert (a + b)[i] == a[i];
    }
  }

  lemma ScopeNames(g: Graph, x: Name)
    requires g.Valid() && x in g.index
    ensures NamesOf(InOrder(g.nodes, ScopeOf(g, x))) == ScopeOf(g, x)
  {
    InOrderNames(g.nodes, ScopeOf(g, x));
    forall n | n in ScopeOf(g, x)
      ensures n in NamesOf(g.nodes)
    {
      assert g.nodes[g.index[n]].Name() == n;
    }
  }

  lemma RootInputsGrow(definition: string, done: set<Name>, n: Name)
    ensures RootInputs(definition, done + {n}) == RootInputs(definition, done)[RunId(n, 0) := Payload(definition, map[], None)]
  {
    assert FirstRuns(done + {n}) == FirstRuns(done) + {RunId(n, 0)};
  }

  lemma ReadyInputsGrow(g: Graph, run: GraphRunRecord, records: NodeRecords, done: set<Name>, n: Name)
    requires g.Valid() && done <= g.index.Keys && n in g.index
    ensures ReadyInputs(g, run, records, done + {n})
         == if StateOf(g, CurrentRecords(run, records), n) == Ready
            then ReadyInputs(g, run, records, done)[RunId(n, NextCount(records, n)) := PayloadOf(g, run, records, n)]
            else ReadyInputs(g, run, records, done)
  {
    hide StateOf;
    var id := RunId(n, NextCount(records, n));
    var before := ReadyRuns(g, run, records, done);
    var after := ReadyRuns(g, run, records, done + {n});
    if StateOf(g, CurrentRecords(run, records), n) == Ready {
      assert after == before + {id};
    } else {
      assert after == before;
    }
  }

  lemma SubmitReadyNone(g: Graph, st: Store, run: GraphRunRecord)
    requires g.Valid()
    ensures SubmitReady(g, st, run, {}) == st
  {
    assert ReadyInputs(g, run, st.records, {}) == map[];
  }

  lemma SubmitReadyGrows(g: Graph, st: Store, run: GraphRunRecord, done: set<Name>, n: Name)
    requires g.Valid() && done <= g.index.Keys && n in g.index
    ensures SubmitReady(g, st, run, done + {n})
         == if StateOf(g, CurrentRecords(run, st.records), n) == Ready
            then Submit(SubmitReady(g, st, run, done), RunId(n, NextCount(st.records, n)),
                        PayloadOf(g, run, st.records, n))
            else SubmitReady(g, st, run, done)
  {
    hide StateOf;
    ReadyInputsGrow(g, run, st.records, done, n);
    SubmitAllGrows(st, ReadyInputs(g, run, st.records, done), RunId(n, NextCount(st.records, n)),
                   PayloadOf(g, run, st.records, n));
  }
}
