/**
 Runs of the scheduler: any actions, each one call of a handler. It joins the class
 to what is proved of its transitions.
 */
module Driver {
  import opened Wrappers
  import opened Records
  import opened Graphs
  import opened Readiness
  import opened Store
  import opened Handlers
  import opened Settlement
  import Progress
  import Scheduler

  method Call(s: Scheduler.Scheduler, a: Action)
    requires s.graph.Valid()
    modifies s
    ensures s.State() == Do(s.graph, old(s.State()), a)
  {
    match a
    case Start(definition) =>
      var _ := s.StartRun(definition);
    case Event(n) =>
      if n in s.events {
        s.HandleEvent(n);
      }
    case Reconcile =>
      var _, _, _, _ := s.Reconcile();
    case RerunOf(n) =>
      var _ := s.RerunNode(n, None);
    case Cancel =>
      var _, _, _ := s.CancelRun();
    case Deliver(id, request) =>
      var _ := s.HandleRequest(id, request);
    case Terminated(id, status, output, error) =>
      if id in s.active && id in s.submitted {
        s.TerminateRun(id, status, output, error);
      }
    case Acknowledge(n) =>
      s.events := s.events - {n};
    case Tick =>
      s.clock := s.clock + 1;
    case StartCut(definition, roots) =>
      if roots <= s.graph.Roots() && s.run.None? {
        s.CreateRun(definition);
        s.SubmitRoots(definition, roots);
      }
    case AdvanceCut(candidates) =>
      if s.run.Some? && s.run.value.state == RunActive && candidates <= s.graph.index.Keys {
        var states := NodeStates(s.graph, CurrentRecords(s.run.value, s.records));
        var _ := s.SubmitCandidates(candidates, states);
      }
    case RerunCut(n) =>
      var _ := s.MarkForRerun(n);
  }

  method Drive(s: Scheduler.Scheduler, actions: seq<Action>)
    requires s.graph.Valid()
    modifies s
    ensures s.State() == Perform(s.graph, old(s.State()), actions)
    ensures AtomicInv(s.graph, old(s.State())) ==> AtomicInv(s.graph, s.State())
    decreases |actions|
  {
    hide Do, AtomicInv;
    if AtomicInv(s.graph, s.State()) {
      PerformKeeps(s.graph, s.State(), actions);
    }
    if actions != [] {
      Call(s, actions[0]);
      Drive(s, actions[1..]);
    }
  }

  /** A scheduler that starts with nothing stored, after any actions: a settled run has
      no active instance, and it is complete exactly when every node succeeded. */
  method Run(graph: Graph, actions: seq<Action>) returns (s: Scheduler.Scheduler)
    requires graph.Valid()
    ensures fresh(s) && s.graph == graph && s.State() == Perform(graph, Empty, actions)
    ensures AtomicInv(graph, s.State())
    ensures IsSettled(s.State()) ==>
      && s.active == {}
      && (s.run.value.state == RunComplete <==>
            forall n :: n in graph.index ==>
              n in s.records && s.records[n].status == Succeeded && s.run.value.IsCurrent(n, s.records[n]))
  {
    hide Do, StateOf, StatesOf, SettledState;
    s := new Scheduler.Scheduler(graph);
    Progress.EmptyIsSound(graph);
    Drive(s, actions);
    if IsSettled(s.State()) {
      Progress.SettledRunIsFinished(graph, actions);
    }
  }
}
