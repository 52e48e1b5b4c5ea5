/**
 Confluence: for a fixed status per node, with no rerun and no cancel, every order
 of submits, terminations, events and reconciler passes ends with the same records
 and the same final state. Events alone lead there as well.
 */
module Confluence {
  import opened Wrappers
  import opened Json
  import opened Records
  import opened Graphs
  import opened Readiness
  import opened ReadinessLaws
  import opened Store
  import opened RunRules
  import opened RunLaws
  import opened Handlers
  import opened Settlement
  import opened Progress

  /** The status each node terminates with, if it runs. */
  type Script = map<Name, RecordStatus>

  /** A start submits a one-failed root although no record satisfies its rule. */
  ghost predicate Regular(g: Graph) {
    && g.Valid()
    && forall n :: n in g.index && g.Get(n).Rule() == OneFailed ==> g.Get(n).upstreams != {}
  }

  /** The node runs when its upstreams that run end as the script says. */
  ghost predicate Fires(g: Graph, script: Script, n: Name)
    requires g.Valid() && script.Keys == g.index.Keys && n in g.index
    decreases g.Rank(n)
  {
    match g.Get(n).Rule()
    case AllSucceeded => forall u :: u in g.Get(n).upstreams ==> Fires(g, script, u) && script[u] == Succeeded
    case AllDone => forall u :: u in g.Get(n).upstreams ==> Fires(g, script, u)
    case OneFailed => exists u :: u in g.Get(n).upstreams && Fires(g, script, u) && script[u] == Failed
  }

  /** The records a run ends with, as their statuses. */
  ghost function Outcome(g: Graph, script: Script): Script
    requires g.Valid() && script.Keys == g.index.Keys
  {
    map n | n in g.index && Fires(g, script, n) :: script[n]
  }

  function Statuses(records: NodeRecords): Script {
    map n | n in records :: records[n].status
  }

  predicate Follows(script: Script, a: Action) {
    match a
    case Start(_) => true
    case Event(_) => true
    case Reconcile => true
    case Terminated(id, status, _, _) => id.node in script ==> status == script[id.node]
    case Acknowledge(_) => true
    case Tick => true
    case StartCut(_, _) => true
    case AdvanceCut(_) => true
    case _ => false
  }

  // ---- The invariant ----

  /** Only nodes that fire have records, with the statuses of the script. */
  ghost predicate RecordsFollow(g: Graph, script: Script, records: NodeRecords)
    requires g.Valid() && script.Keys == g.index.Keys
  {
    forall n {:trigger n in records} :: n in records ==>
      n in g.index && Fires(g, script, n) && records[n].status == script[n]
  }

  ghost predicate ScriptInv(g: Graph, script: Script, st: Store)
    requires g.Valid() && script.Keys == g.index.Keys
  {
    && AtomicInv(g, st)
    && (st.run.Some? ==> st.run.value.expectedReruns == map[] && st.run.value.state != RunCancelled)
    && RecordsFollow(g, script, st.records)
    && (forall id {:trigger id in st.active} :: id in st.active ==>
          id.node in g.index && Fires(g, script, id.node) && id.node !in st.records && id.rerun == 0)
  }

  lemma AllCurrent(run: GraphRunRecord, records: NodeRecords)
    requires run.expectedReruns == map[]
    ensures CurrentRecords(run, records) == records
  {
  }

  /** A node that its records make ready fires. */
  lemma ReadyFires(g: Graph, script: Script, records: NodeRecords, n: Name)
    requires g.Valid() && script.Keys == g.index.Keys && RecordsFollow(g, script, records)
    requires n in g.index && IsReady(g.Get(n), records)
    ensures Fires(g, script, n)
  {
    if g.Get(n).Rule() == OneFailed {
      var u :| u in g.Get(n).upstreams && u in records && records[u].status == Failed;
      assert Fires(g, script, u) && script[u] == Failed;
    } else {
      forall u | u in g.Get(n).upstreams
        ensures u in records && Fires(g, script, u) && records[u].status == script[u]
      {
      }
    }
  }

  lemma SubmitFires(g: Graph, script: Script, st: Store, candidates: set<Name>)
    requires g.Valid() && script.Keys == g.index.Keys && ScriptInv(g, script, st)
    requires IsActive(st) && candidates <= g.index.Keys
    ensures forall id {:trigger id in ReadyRuns(g, st.run.value, st.records, candidates)} ::
              id in ReadyRuns(g, st.run.value, st.records, candidates) ==>
              id.node in g.index && Fires(g, script, id.node) && id.node !in st.records && id.rerun == 0
  {
    hide StateOf, Fires, AtomicInv;
    AllCurrent(st.run.value, st.records);
    forall id {:trigger id in ReadyRuns(g, st.run.value, st.records, candidates)} |
      id in ReadyRuns(g, st.run.value, st.records, candidates)
      ensures id.node in g.index && Fires(g, script, id.node) && id.node !in st.records && id.rerun == 0
    {
      UnrecordedState(g, st.records, id.node);
      StateReads(g, st.records, id.node);
      ReadyFires(g, script, st.records, id.node);
    }
  }

  lemma AdvanceFollows(g: Graph, script: Script, st: Store, candidates: set<Name>)
    requires g.Valid() && script.Keys == g.index.Keys && ScriptInv(g, script, st)
    requires IsActive(st) && candidates <= g.index.Keys
    ensures ScriptInv(g, script, AdvanceTo(g, st, candidates))
  {
    hide StateOf, Fires, AtomicInv, SettledInv, StatesOf, SettledState, CurrentRecords, AdvanceTo, ReadyRuns, ReadyInputs;
    ScriptGives(g, script, st);
    AdvanceKeeps(g, st, candidates);
    SubmitFires(g, script, st, candidates);
    SettledExactlyWithoutReadyNodes(g, CurrentRecords(st.run.value, st.records));
    AdvanceIsSimple(g, st, candidates);
  }

  /** The submits of an advance that is cut before its settle. */
  lemma SubmitsFollow(g: Graph, script: Script, st: Store, candidates: set<Name>)
    requires g.Valid() && script.Keys == g.index.Keys && ScriptInv(g, script, st)
    requires IsActive(st) && candidates <= g.index.Keys
    ensures ScriptInv(g, script, SubmitReady(g, st, st.run.value, candidates))
  {
    hide StateOf, Fires, AtomicInv, SettledInv, StatesOf, SettledState, CurrentRecords, RecordsFollow, SubmitReady, ReadyRuns;
    DoKeeps(g, st, AdvanceCut(candidates));
    SubmitFires(g, script, st, candidates);
    SubmitReadyKeepsRun(g, st, candidates);
    SubmitsReady(g, st, candidates);
  }

  lemma SubmitsReady(g: Graph, st: Store, candidates: set<Name>)
    requires g.Valid() && IsActive(st) && candidates <= g.index.Keys
    ensures SubmitReady(g, st, st.run.value, candidates).active
            <= st.active + ReadyRuns(g, st.run.value, st.records, candidates)
  {
    hide StateOf;
  }

  /** Without expected counts, an advance adds active instances and can settle. */
  lemma AdvanceIsSimple(g: Graph, st: Store, candidates: set<Name>)
    requires g.Valid() && IsActive(st) && candidates <= g.index.Keys && st.run.value.expectedReruns == map[]
    ensures var next := AdvanceTo(g, st, candidates);
            && next.run.Some? && next.run.value.expectedReruns == map[]
            && next.run.value.state in {RunActive, RunComplete, RunFailed}
            && next.records == st.records && next.events == st.events
            && st.active <= next.active <= st.active + ReadyRuns(g, st.run.value, st.records, candidates)
  {
    hide StateOf, StatesOf;
    SettledExactlyWithoutReadyNodes(g, CurrentRecords(st.run.value, st.records));
    hide SettledState, CurrentRecords;
  }

  lemma StartFollows(g: Graph, script: Script, st: Store, definition: string, roots: set<Name>)
    requires Regular(g) && script.Keys == g.index.Keys && ScriptInv(g, script, st) && roots <= g.Roots()
    ensures ScriptInv(g, script, StartSome(st, definition, roots))
  {
    hide AtomicInv, StoreInv, Graph.Wired, Graph.Acyclic;
    StartKeeps(g, st, definition, roots);
    if st.run == None {
      ScriptGives(g, script, st);
      NothingBeforeTheRun(g, st);
      forall id | id in StartSome(st, definition, roots).active
        ensures id.node in g.Roots() && id.rerun == 0 && Fires(g, script, id.node)
      {
        assert id in FirstRuns(roots);
        assert g.Get(id.node).upstreams == {};
      }
    }
  }

  lemma TerminationFollows(g: Graph, script: Script, st: Store, a: Action)
    requires g.Valid() && script.Keys == g.index.Keys && ScriptInv(g, script, st)
    requires a.Terminated? && Follows(script, a)
    ensures ScriptInv(g, script, Do(g, st, a))
  {
    hide AtomicInv, Fires;
    ScriptGives(g, script, st);
    DoKeeps(g, st, a);
    if a.run in st.active && a.run in st.submitted {
      OnlyOneActive(g, st, a.run);
    }
  }

  lemma ActionFollows(g: Graph, script: Script, st: Store, a: Action)
    requires Regular(g) && script.Keys == g.index.Keys && ScriptInv(g, script, st) && Follows(script, a)
    ensures ScriptInv(g, script, Do(g, st, a))
  {
    match a
    case Start(definition) => StartFollows(g, script, st, definition, g.Roots());
    case Event(n) =>
      if n in st.events && IsActive(st) && n in g.index {
        AdvanceFollows(g, script, st, g.Get(n).downstreams);
      }
    case Reconcile =>
      if IsActive(st) {
        AdvanceFollows(g, script, st, g.index.Keys);
      }
    case Terminated(_, _, _, _) => TerminationFollows(g, script, st, a);
    case Acknowledge(_) => DoKeeps(g, st, a);
    case Tick => DoKeeps(g, st, a);
    case StartCut(definition, roots) =>
      if roots <= g.Roots() {
        StartFollows(g, script, st, definition, roots);
      }
    case AdvanceCut(candidates) =>
      if IsActive(st) && candidates <= g.index.Keys {
        SubmitsFollow(g, script, st, candidates);
      }
  }

  lemma {:induction false} ActionsFollow(g: Graph, script: Script, st: Store, actions: seq<Action>)
    requires Regular(g) && script.Keys == g.index.Keys && ScriptInv(g, script, st)
    requires forall a :: a in actions ==> Follows(script, a)
    ensures ScriptInv(g, script, Perform(g, st, actions))
    decreases |actions|
  {
    if actions != [] {
      hide ScriptInv, Do;
      assert actions[0] in actions;
      ActionFollows(g, script, st, actions[0]);
      ActionsFollow(g, script, Do(g, st, actions[0]), actions[1..]);
    }
  }

  // ---- The end of a run ----

  /** Once no node is ready, every node that fires has its record. */
  lemma {:induction false} QuietMeansFired(g: Graph, script: Script, records: NodeRecords, n: Name)
    requires g.Valid() && script.Keys == g.index.Keys && RecordsFollow(g, script, records)
    requires forall m :: m in g.index && m !in records ==> !IsReady(g.Get(m), records)
    requires n in g.index && Fires(g, script, n)
    ensures n in records
    decreases g.Rank(n)
  {
    if n !in records {
      forall u | u in g.Get(n).upstreams && Fires(g, script, u)
        ensures u in records && records[u].status == script[u]
      {
        RankDecreases(g, n, u);
        QuietMeansFired(g, script, records, u);
      }
    }
  }

  /** The records of the script in which no node is ready are its outcome. */
  lemma QuietRecordsAreOutcome(g: Graph, script: Script, records: NodeRecords)
    requires g.Valid() && script.Keys == g.index.Keys && RecordsFollow(g, script, records)
    requires forall m :: m in g.index && m !in records ==> !IsReady(g.Get(m), records)
    ensures Statuses(records) == Outcome(g, script)
  {
    hide IsReady, Fires;
    forall n | n in g.index && Fires(g, script, n)
      ensures n in records
    {
      QuietMeansFired(g, script, records, n);
    }
  }

  lemma SettledIsQuiet(g: Graph, st: Store, m: Name)
    requires g.Valid() && AtomicInv(g, st) && IsSettled(st) && st.run.value.expectedReruns == map[]
    requires m in g.index && m !in st.records
    ensures !IsReady(g.Get(m), st.records)
  {
    hide StateOf, StoreInv;
    AllCurrent(st.run.value, st.records);
    SettledExactlyWithoutReadyNodes(g, st.records);
    StateReads(g, st.records, m);
  }

  lemma SettledHasOutcome(g: Graph, script: Script, st: Store)
    requires g.Valid() && script.Keys == g.index.Keys && ScriptInv(g, script, st) && IsSettled(st)
    ensures Statuses(st.records) == Outcome(g, script)
  {
    hide AtomicInv, IsReady, Fires, RecordsFollow, Outcome;
    forall m | m in g.index && m !in st.records
      ensures !IsReady(g.Get(m), st.records)
    {
      SettledIsQuiet(g, st, m);
    }
    QuietRecordsAreOutcome(g, script, st.records);
  }

  /** The outcome is complete exactly when every node fires and succeeds. */
  lemma OutcomeIsComplete(g: Graph, script: Script, records: NodeRecords)
    requires g.Valid() && script.Keys == g.index.Keys && Statuses(records) == Outcome(g, script)
    ensures SettledState(StatesOf(g, records)) == Some(RunComplete) <==>
            forall n :: n in g.index ==> Fires(g, script, n) && script[n] == Succeeded
  {
    hide StateOf, StatesOf, SettledState, Fires;
    SettledExactlyWithoutReadyNodes(g, records);
    assert forall n {:trigger n in records} :: n in records <==> n in Statuses(records);
    assert forall n :: n in g.index ==> (n in records <==> Fires(g, script, n));
  }

  lemma SettledHasState(g: Graph, script: Script, st: Store)
    requires g.Valid() && script.Keys == g.index.Keys && ScriptInv(g, script, st) && IsSettled(st)
    requires Statuses(st.records) == Outcome(g, script)
    ensures st.run.value.state == RunComplete <==>
            forall n :: n in g.index ==> Fires(g, script, n) && script[n] == Succeeded
  {
    hide StateOf, StatesOf, SettledState, StoreInv, Fires, Outcome;
    AllCurrent(st.run.value, st.records);
    OutcomeIsComplete(g, script, st.records);
  }

  /** Every settled run of the script has the records that fire and the state they give. */
  lemma SettledRunHasTheOutcome(g: Graph, script: Script, actions: seq<Action>)
    requires Regular(g) && script.Keys == g.index.Keys
    requires forall a :: a in actions ==> Follows(script, a)
    requires IsSettled(Perform(g, Empty, actions))
    ensures Statuses(Perform(g, Empty, actions).records) == Outcome(g, script)
    ensures Perform(g, Empty, actions).run.value.state == RunComplete <==>
            forall n :: n in g.index ==> Fires(g, script, n) && script[n] == Succeeded
  {
    EmptyFollows(g, script);
    hide ScriptInv, Fires, Perform, Outcome;
    ActionsFollow(g, script, Empty, actions);
    SettledHasOutcome(g, script, Perform(g, Empty, actions));
    SettledHasState(g, script, Perform(g, Empty, actions));
  }

  lemma EmptyFollows(g: Graph, script: Script)
    requires g.Valid() && script.Keys == g.index.Keys
    ensures ScriptInv(g, script, Empty)
  {
    EmptyIsSound(g);
  }

  /** Any two settled runs agree, whatever the order of their actions. */
  lemma RunsAreConfluent(g: Graph, script: Script, actions: seq<Action>, others: seq<Action>)
    requires Regular(g) && script.Keys == g.index.Keys
    requires forall a :: a in actions ==> Follows(script, a)
    requires forall a :: a in others ==> Follows(script, a)
    requires IsSettled(Perform(g, Empty, actions)) && IsSettled(Perform(g, Empty, others))
    ensures Statuses(Perform(g, Empty, actions).records) == Statuses(Perform(g, Empty, others).records)
    ensures Perform(g, Empty, actions).run.value.state == Perform(g, Empty, others).run.value.state
  {
    hide Fires, StoreInv, Perform, Outcome;
    SettledRunHasTheOutcome(g, script, actions);
    SettledRunHasTheOutcome(g, script, others);
  }

  // ---- Events alone ----

  /** A termination, or the handling of a pending event to its end. */
  datatype EventStep =
    | Finish(run: RunId, status: RecordStatus, output: Option<Value>, error: Option<string>)
    | Handle(node: Name)

  ghost function Step(g: Graph, st: Store, e: EventStep): Store
    requires g.Valid()
  {
    match e
    case Finish(id, status, output, error) => Do(g, st, Terminated(id, status, output, error))
    case Handle(n) => Do(g, Do(g, st, Event(n)), Acknowledge(n))
  }

  ghost function Steps(g: Graph, st: Store, events: seq<EventStep>): Store
    requires g.Valid()
    decreases |events|
  {
    if events == [] then st else Steps(g, Step(g, st, events[0]), events[1..])
  }

  ghost predicate Obeys(script: Script, e: EventStep) {
    e.Finish? && e.run.node in script ==> e.status == script[e.run.node]
  }

  /** A ready node is submitted, or the event of one of its upstreams is pending. */
  ghost predicate Attended(g: Graph, st: Store, n: Name)
    requires g.Valid() && n in g.index
  {
    RunId(n, 0) in st.active || exists u :: u in g.Get(n).upstreams && u in st.events
  }

  ghost predicate EventInv(g: Graph, script: Script, st: Store)
    requires g.Valid() && script.Keys == g.index.Keys
  {
    && ScriptInv(g, script, st)
    && (IsActive(st) ==>
          && (st.active != {} || st.events != {})
          && forall n {:trigger Attended(g, st, n)} ::
               n in g.index && n !in st.records && IsReady(g.Get(n), st.records) ==> Attended(g, st, n))
    && st.run.Some? && st.events <= g.index.Keys
  }

  lemma FinishAttends(g: Graph, script: Script, st: Store, e: EventStep)
    requires Regular(g) && script.Keys == g.index.Keys && EventInv(g, script, st)
    requires e.Finish? && Obeys(script, e)
    ensures EventInv(g, script, Step(g, st, e))
  {
    hide ScriptInv, Graph.Wired, Graph.Acyclic, IsReady;
    var a := Terminated(e.run, e.status, e.output, e.error);
    TerminationFollows(g, script, st, a);
    ActiveIsNode(g, script, st, e.run);
    var next := Step(g, st, e);
    if next != st && IsActive(next) {
      forall n | n in g.index && n !in next.records && IsReady(g.Get(n), next.records)
        ensures Attended(g, next, n)
      {
        if e.run.node in g.Get(n).upstreams {
          assert e.run.node in next.events;
        } else {
          ReadinessIsLocal(g.Get(n), st.records, e.run.node, next.records[e.run.node]);
          assert Attended(g, st, n);
          assert n != e.run.node;
        }
      }
    }
  }

  lemma ActiveIsNode(g: Graph, script: Script, st: Store, id: RunId)
    requires g.Valid() && script.Keys == g.index.Keys && ScriptInv(g, script, st)
    ensures id in st.active ==> id.node in g.index
  {
    hide AtomicInv, Fires, RecordsFollow;
  }

  lemma ReadinessIsLocal(node: Node, records: NodeRecords, u: Name, record: NodeRecord)
    requires u !in node.upstreams
    ensures IsReady(node, records[u := record]) <==> IsReady(node, records)
  {
    if node.Rule() == OneFailed && IsReady(node, records) {
      var w :| w in node.upstreams && w in records && records[w].status == Failed;
      assert records[u := record][w].status == Failed;
    }
  }

  lemma HandledIsSubmitted(g: Graph, st: Store, candidates: set<Name>, m: Name)
    requires g.Valid() && StoreInv(g, st) && IsActive(st) && candidates <= g.index.Keys
    requires st.run.value.expectedReruns == map[]
    requires m in candidates && m !in st.records && IsReady(g.Get(m), st.records)
    ensures RunId(m, 0) in AdvanceTo(g, st, candidates).active
  {
    hide StateOf;
    AllCurrent(st.run.value, st.records);
    StateReads(g, st.records, m);
    assert RunId(m, 0) in ReadyRuns(g, st.run.value, st.records, candidates);
  }

  lemma ReadyIsAttended(g: Graph, script: Script, st: Store, m: Name)
    requires Regular(g) && script.Keys == g.index.Keys && EventInv(g, script, st)
    requires IsActive(st) && m in g.index && m !in st.records && IsReady(g.Get(m), st.records)
    ensures RunId(m, 0) in st.active || exists u :: u in g.Get(m).upstreams && u in st.events
    ensures StoreInv(g, st) && st.run.value.expectedReruns == map[]
  {
    hide StateOf, Fires, IsReady, AtomicInv;
    ScriptGives(g, script, st);
    assert Attended(g, st, m);
  }

  lemma HandleAttendsReady(g: Graph, script: Script, st: Store, n: Name, m: Name)
    requires Regular(g) && script.Keys == g.index.Keys && EventInv(g, script, st)
    requires IsActive(st) && n in g.index && m in g.index && m !in st.records && IsReady(g.Get(m), st.records)
    ensures var next := AdvanceTo(g, st, g.Get(n).downstreams);
            RunId(m, 0) in next.active || exists u :: u in g.Get(m).upstreams && u in st.events - {n}
  {
    hide StateOf, Fires, IsReady, AtomicInv, StoreInv, EventInv, AdvanceTo;
    ReadyIsAttended(g, script, st, m);
    AdvanceIsSimple(g, st, g.Get(n).downstreams);
    if m in g.Get(n).downstreams {
      HandledIsSubmitted(g, st, g.Get(n).downstreams, m);
    } else if RunId(m, 0) !in st.active {
      var u :| u in g.Get(m).upstreams && u in st.events;
      assert u != n;
    }
  }

  /** An advance that does not settle leaves a ready node or an active instance. */
  lemma UnsettledHasWork(g: Graph, st: Store, candidates: set<Name>)
    requires g.Valid() && StoreInv(g, st) && IsActive(st) && candidates <= g.index.Keys
    requires st.run.value.expectedReruns == map[] && IsActive(AdvanceTo(g, st, candidates))
    ensures AdvanceTo(g, st, candidates).active != {}
         || exists m :: m in g.index && m !in st.records && IsReady(g.Get(m), st.records)
  {
    hide StateOf;
    AllCurrent(st.run.value, st.records);
    SettledExactlyWithoutReadyNodes(g, st.records);
    if m :| m in g.index && StateOf(g, st.records, m) == Ready {
      StateReads(g, st.records, m);
      UnrecordedState(g, st.records, m);
    }
  }

  lemma HandleAttends(g: Graph, script: Script, st: Store, n: Name)
    requires Regular(g) && script.Keys == g.index.Keys && EventInv(g, script, st)
    ensures EventInv(g, script, Step(g, st, Handle(n)))
  {
    hide ScriptInv, Fires, IsReady, StateOf, ReadyRuns;
    var mid := Do(g, st, Event(n));
    var next := Step(g, st, Handle(n));
    ActionFollows(g, script, st, Event(n));
    ActionFollows(g, script, mid, Acknowledge(n));
    if n !in st.events || !IsActive(st) {
      assert st.events - {n} == st.events || !IsActive(st);
    } else {
      ScriptGives(g, script, st);
      AdvanceIsSimple(g, st, g.Get(n).downstreams);
      HandleKeepsAttended(g, script, st, n, next);
    }
  }

  lemma HandleKeepsAttended(g: Graph, script: Script, st: Store, n: Name, next: Store)
    requires Regular(g) && script.Keys == g.index.Keys && EventInv(g, script, st)
    requires IsActive(st) && n in g.index
    requires var mid := AdvanceTo(g, st, g.Get(n).downstreams);
             next.records == st.records && next.run == mid.run && next.active == mid.active
             && next.events == st.events - {n}
    ensures forall m {:trigger Attended(g, next, m)} ::
              m in g.index && m !in next.records && IsReady(g.Get(m), next.records) ==> Attended(g, next, m)
    ensures IsActive(next) ==> next.active != {} || next.events != {}
  {
    hide ScriptInv, AdvanceTo, Fires, IsReady, StateOf;
    forall m | m in g.index && m !in next.records && IsReady(g.Get(m), next.records)
      ensures Attended(g, next, m)
    {
      HandleAttendsReady(g, script, st, n, m);
    }
    ScriptGives(g, script, st);
    if IsActive(next) && next.active == {} {
      UnsettledHasWork(g, st, g.Get(n).downstreams);
      var m :| m in g.index && m !in st.records && IsReady(g.Get(m), st.records);
      assert Attended(g, next, m);
    }
  }

  lemma ScriptGives(g: Graph, script: Script, st: Store)
    requires g.Valid() && script.Keys == g.index.Keys && ScriptInv(g, script, st)
    ensures StoreInv(g, st) && (st.run.Some? ==> st.run.value.expectedReruns == map[])
  {
  }

  lemma {:induction false} StepsAttend(g: Graph, script: Script, st: Store, events: seq<EventStep>)
    requires Regular(g) && script.Keys == g.index.Keys && EventInv(g, script, st)
    requires forall e :: e in events ==> Obeys(script, e)
    ensures EventInv(g, script, Steps(g, st, events))
    decreases |events|
  {
    if events != [] {
      hide EventInv, Step;
      var e := events[0];
      assert e in events;
      if e.Finish? {
        FinishAttends(g, script, st, e);
      } else {
        HandleAttends(g, script, st, e.node);
      }
      StepsAttend(g, script, Step(g, st, e), events[1..]);
    }
  }

  lemma StartAttends(g: Graph, script: Script, definition: string)
    requires Regular(g) && script.Keys == g.index.Keys && g.index != map[]
    ensures EventInv(g, script, StartTo(g, Empty, definition))
  {
    hide ScriptInv, Fires;
    EmptyFollows(g, script);
    StartFollows(g, script, Empty, definition, g.Roots());
    var st := StartTo(g, Empty, definition);
    var first := FirstRoot(g);
    assert RunId(first, 0) in FirstRuns(g.Roots());
    forall n | n in g.index && IsReady(g.Get(n), st.records)
      ensures Attended(g, st, n)
    {
      RootIsReady(g.Get(n));
      assert RunId(n, 0) in FirstRuns(g.Roots());
    }
  }

  lemma FirstRoot(g: Graph) returns (first: Name)
    requires g.Valid() && g.index != map[]
    ensures first in g.Roots()
  {
    first := LeastRank(g, g.index.Keys);
    if u :| u in g.Get(first).upstreams {
      RankDecreases(g, first, u);
    }
  }

  lemma RootIsReady(node: Node)
    requires IsReady(node, map[])
    ensures node.upstreams == {}
  {
    assert forall u {:trigger u in node.upstreams} :: u in node.upstreams ==> !IsReady(node, map[]);
  }

  /** Without a reconciler pass: when every event is handled and no instance is
      active, the run is settled, with the records and the state of the script. */
  lemma EventsAloneSettle(g: Graph, script: Script, definition: string, events: seq<EventStep>)
    requires Regular(g) && script.Keys == g.index.Keys && g.index != map[]
    requires forall e :: e in events ==> Obeys(script, e)
    requires var end := Steps(g, StartTo(g, Empty, definition), events);
             end.active == {} && end.events == {}
    ensures var end := Steps(g, StartTo(g, Empty, definition), events);
            && IsSettled(end)
            && Statuses(end.records) == Outcome(g, script)
  {
    hide EventInv, Fires, Steps, Outcome;
    StartAttends(g, script, definition);
    StepsAttend(g, script, StartTo(g, Empty, definition), events);
    DoneIsSettled(g, script, Steps(g, StartTo(g, Empty, definition), events));
    SettledHasOutcome(g, script, Steps(g, StartTo(g, Empty, definition), events));
  }

  lemma DoneIsSettled(g: Graph, script: Script, st: Store)
    requires g.Valid() && script.Keys == g.index.Keys && EventInv(g, script, st)
    requires st.active == {} && st.events == {}
    ensures IsSettled(st) && ScriptInv(g, script, st)
  {
    hide AtomicInv, Fires, IsReady;
  }
}
