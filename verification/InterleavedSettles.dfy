/**
 When a settled run can have an active instance although handlers interleave: the
 steps that make it so, and the runs without a rerun, in which none does.
 */
module InterleavedSettles {
  import opened Wrappers
  import opened Json
  import opened Records
  import opened Graphs
  import opened Readiness
  import opened ReadinessLaws
  import opened Store
  import opened RunRules
  import opened RunLaws
  import opened Interleaving
  import opened InterleavingLaws
  import opened InterleavingTheorems
  import S = Settlement
  import C = Confluence

  ghost predicate IsIdleWhenSettled(st: Store) {
    S.IsSettled(st) ==> st.active == {}
  }

  // ---- The steps that break it ----

  /** The commit of a settle whose compare holds while an instance is active. */
  predicate SettlesOverActive(w: World, s: Step) {
    && s.Go? && s.h in w.handlers && w.handlers[s.h].Settling?
    && w.store.run == Some(w.handlers[s.h].run)
    && w.store.active != {}
  }

  /** The instance that the next step of a handler submits, if it submits one. */
  ghost function SubmitOf(g: Graph, handler: Handler, choice: Name): Option<RunId>
    requires g.Valid() && HandlerIn(g, handler)
  {
    match handler
    case Rooting(_, todo, _) => if choice in todo then Some(RunId(choice, 0)) else None
    case Submitting(run, seen, todo) =>
      if choice in todo && StateOf(g, CurrentRecords(run, seen), choice) == Ready
      then Some(RunId(choice, NextCount(seen, choice))) else None
    case Resubmitting(_, seen, node, _) => Some(RunId(node, seen[node].rerun + 1))
    case _ => None
  }

  /** A start, an advance or a rerun submits a new instance of a settled run. */
  ghost predicate SubmitsIntoSettled(g: Graph, w: World, s: Step)
    requires g.Valid()
  {
    && S.IsSettled(w.store)
    && s.Go? && s.h in w.handlers && HandlerIn(g, w.handlers[s.h])
    && SubmitOf(g, w.handlers[s.h], s.choice).Some?
    && SubmitOf(g, w.handlers[s.h], s.choice).value !in w.store.submitted
  }

  ghost predicate Breaks(g: Graph, w: World, s: Step)
    requires g.Valid()
  {
    SettlesOverActive(w, s) || SubmitsIntoSettled(g, w, s)
  }

  /** A step leaves a settled run with an active instance exactly when it is one of
      the two: a settle commits over an active instance, or a handler submits a new
      instance of a run that is settled. */
  lemma StepBreaksExactly(g: Graph, w: World, s: Step)
    requires g.Valid() && WorldInv(g, w) && IsIdleWhenSettled(w.store)
    ensures !IsIdleWhenSettled(Next(g, w, s).store) <==> Breaks(g, w, s)
  {
    hide StateOf, StatesOf, SettledState, StoreInv, RequestsInv, View, MayRerun, CurrentRecords, UpstreamRecords,
         OneRequest;
    if s.Go? && s.h in w.handlers {
      assert HandlerInv(g, w, s.h);
      GoBreaksExactly(g, w, s.h, s.choice);
    }
  }

  lemma GoBreaksExactly(g: Graph, w: World, h: nat, choice: Name)
    requires g.Valid() && h in w.handlers && HandlerInv(g, w, h) && IsIdleWhenSettled(w.store)
    ensures !IsIdleWhenSettled(Next(g, w, Go(h, choice)).store) <==> Breaks(g, w, Go(h, choice))
  {
    hide StateOf, StatesOf, SettledState, View, MayRerun, CurrentRecords, UpstreamRecords, Submit;
    if SubmitOf(g, w.handlers[h], choice).Some? {
      SubmitterBreaksExactly(g, w, h, choice);
    } else {
      OthersBreakExactly(g, w, h, choice);
    }
  }

  lemma SubmitterBreaksExactly(g: Graph, w: World, h: nat, choice: Name)
    requires g.Valid() && h in w.handlers && HandlerIn(g, w.handlers[h]) && IsIdleWhenSettled(w.store)
    requires SubmitOf(g, w.handlers[h], choice).Some?
    ensures var id, next := SubmitOf(g, w.handlers[h], choice).value, Next(g, w, Go(h, choice)).store;
            && next.run == w.store.run
            && (id in w.store.submitted ==> next == w.store)
            && (id !in w.store.submitted ==> id in next.active)
  {
    hide StateOf, StatesOf, SettledState, CurrentRecords, UpstreamRecords;
  }

  lemma OthersBreakExactly(g: Graph, w: World, h: nat, choice: Name)
    requires g.Valid() && h in w.handlers && HandlerInv(g, w, h) && IsIdleWhenSettled(w.store)
    requires SubmitOf(g, w.handlers[h], choice).None?
    ensures !IsIdleWhenSettled(Next(g, w, Go(h, choice)).store) <==> SettlesOverActive(w, Go(h, choice))
  {
    hide StateOf, StatesOf, SettledState, View, MayRerun, CurrentRecords, UpstreamRecords, Submit, IsReady,
         UnrecordedRunId, Seen;
  }

  ghost predicate IsIdleAt(g: Graph, steps: seq<Step>, k: nat)
    requires g.Valid() && k <= |steps|
  {
    IsIdleWhenSettled(After(g, steps[..k]).store)
  }

  ghost predicate BreaksAt(g: Graph, steps: seq<Step>, k: nat)
    requires g.Valid() && k < |steps|
  {
    Breaks(g, After(g, steps[..k]), steps[k])
  }

  ghost predicate IsAlwaysIdle(g: Graph, steps: seq<Step>)
    requires g.Valid()
  {
    forall k :: 0 <= k <= |steps| ==> IsIdleAt(g, steps, k)
  }

  ghost predicate NeverBreaks(g: Graph, steps: seq<Step>)
    requires g.Valid()
  {
    forall k :: 0 <= k < |steps| ==> !BreaksAt(g, steps, k)
  }

  /** No store of a run is settled with an active instance exactly when no step of
      the run is one of the two. */
  lemma {:induction false} RunBreaksExactly(g: Graph, steps: seq<Step>)
    requires g.Valid()
    ensures IsAlwaysIdle(g, steps) <==> NeverBreaks(g, steps)
    decreases |steps|
  {
    hide Breaks, IsIdleWhenSettled, Next, WorldInv, IsAlwaysIdle, NeverBreaks;
    if steps == [] {
      NothingBreaks(g);
    } else {
      var n := |steps| - 1;
      var front := steps[..n];
      RunBreaksExactly(g, front);
      OneMoreStep(g, steps);
      if IsAlwaysIdle(g, front) {
        EveryRunKeeps(g, front);
        StepBreaksExactly(g, After(g, front), steps[n]);
      }
    }
  }

  lemma NothingBreaks(g: Graph)
    requires g.Valid()
    ensures IsAlwaysIdle(g, []) && NeverBreaks(g, [])
  {
  }

  lemma OneMoreStep(g: Graph, steps: seq<Step>)
    requires g.Valid() && steps != []
    ensures var n := |steps| - 1;
            && (IsAlwaysIdle(g, steps) <==>
                  IsAlwaysIdle(g, steps[..n]) && IsIdleWhenSettled(After(g, steps).store))
            && (NeverBreaks(g, steps) <==>
                  NeverBreaks(g, steps[..n]) && !Breaks(g, After(g, steps[..n]), steps[n]))
            && (IsAlwaysIdle(g, steps[..n]) ==> IsIdleWhenSettled(After(g, steps[..n]).store))
  {
    hide IsIdleAt, BreaksAt, Breaks, IsIdleWhenSettled, After;
    var n := |steps| - 1;
    LastStep(g, steps);
    forall k | 0 <= k <= n
      ensures IsIdleAt(g, steps[..n], k) == IsIdleAt(g, steps, k)
      ensures k < n ==> BreaksAt(g, steps[..n], k) == BreaksAt(g, steps, k)
    {
      PrefixStep(g, steps, k);
    }
  }

  lemma PrefixStep(g: Graph, steps: seq<Step>, k: nat)
    requires g.Valid() && k < |steps|
    ensures var front := steps[..|steps| - 1];
            && IsIdleAt(g, front, k) == IsIdleAt(g, steps, k)
            && (k < |front| ==> BreaksAt(g, front, k) == BreaksAt(g, steps, k))
  {
    hide Breaks, IsIdleWhenSettled, After;
    assert steps[..|steps| - 1][..k] == steps[..k];
  }

  lemma LastStep(g: Graph, steps: seq<Step>)
    requires g.Valid() && steps != []
    ensures var n := |steps| - 1;
            && IsIdleAt(g, steps, n + 1) == IsIdleWhenSettled(After(g, steps).store)
            && IsIdleAt(g, steps[..n], n) == IsIdleWhenSettled(After(g, steps[..n]).store)
            && BreaksAt(g, steps, n) == Breaks(g, After(g, steps[..n]), steps[n])
  {
    hide Breaks, IsIdleWhenSettled, After;
    assert steps[..|steps|] == steps && steps[..|steps| - 1][..|steps| - 1] == steps[..|steps| - 1];
  }

  // ---- Runs without a rerun ----

  /** The handler is not of a rerun, and no count is expected of any node. */
  ghost predicate IsCalm(g: Graph, handler: Handler)
    requires g.Valid()
  {
    match handler
    case Reading(run, goal, _, _) => run.expectedReruns == map[] && goal.Advance?
    case Submitting(run, _, _) => run.expectedReruns == map[]
    case Scanning(run, seen, state, _) => run.expectedReruns == map[] && IsFinal(g, seen, state)
    case Settling(run, seen, state) => run.expectedReruns == map[] && IsFinal(g, seen, state)
    case Marking(_, _, _, _) => false
    case Resubmitting(_, _, _, _) => false
    case Cancelling(run, _) => run.expectedReruns == map[]
    case _ => true
  }

  ghost predicate IsFinal(g: Graph, records: NodeRecords, state: GraphRunState)
    requires g.Valid()
  {
    SettledState(StatesOf(g, records)) == Some(state)
  }

  /** Every instance is the first of its node, and a settled run has the state that
      its records give. */
  ghost predicate IsCalmStore(g: Graph, st: Store)
    requires g.Valid()
  {
    && (forall id {:trigger id in st.submitted} :: id in st.submitted ==> id.rerun == 0)
    && (st.run.Some? ==> st.run.value.expectedReruns == map[])
    && (S.IsSettled(st) ==> IsFinal(g, st.records, st.run.value.state))
  }

  ghost predicate CalmInv(g: Graph, w: World)
    requires g.Valid()
  {
    && IsCalmStore(g, w.store)
    && forall h {:trigger w.handlers[h]} :: h in w.handlers ==> IsCalm(g, w.handlers[h])
  }

  lemma FirstRecords(g: Graph, st: Store, n: Name)
    requires g.Valid() && StoreInv(g, st) && IsCalmStore(g, st) && n in st.records
    ensures st.records[n].rerun == 0 && RunId(n, 0) in st.submitted
  {
    RecordedWasSubmitted(st, n);
  }

  /** Without a rerun, what was read is still stored. */
  lemma SeenIsStored(g: Graph, st: Store, seen: NodeRecords)
    requires g.Valid() && StoreInv(g, st) && IsCalmStore(g, st) && Seen(seen, st.records)
    ensures forall n :: n in seen ==> n in st.records && seen[n] == st.records[n]
  {
    forall n | n in seen
      ensures n in st.records && seen[n] == st.records[n]
    {
      FirstRecords(g, st, n);
    }
  }

  /** More records keep a node ready. */
  lemma ReadyGrows(node: Node, some: NodeRecords, all: NodeRecords)
    requires IsReady(node, some) && forall n :: n in some ==> n in all && some[n] == all[n]
    ensures IsReady(node, all)
  {
    if node.Rule() == OneFailed {
      var u :| u in node.upstreams && u in some && some[u].status == Failed;
      assert u in all && all[u].status == Failed;
    }
  }

  /** The input of an instance satisfies the rule, also of a root. */
  lemma InputIsReady(g: Graph, st: Store, id: RunId)
    requires C.Regular(g) && StoreInv(g, st) && id in st.submitted
    ensures id.node in g.index && IsReady(g.Get(id.node), st.submitted[id].upstreams)
    ensures st.submitted[id].upstreams.Keys <= g.Get(id.node).upstreams
    ensures Seen(st.submitted[id].upstreams, st.records)
  {
  }

  /** A submitted node is ready by the stored records. */
  lemma SubmittedIsReady(g: Graph, st: Store, id: RunId)
    requires C.Regular(g) && StoreInv(g, st) && IsCalmStore(g, st) && id in st.submitted
    ensures id.node in g.index && IsReady(g.Get(id.node), st.records)
  {
    var input := st.submitted[id].upstreams;
    InputIsReady(g, st, id);
    SeenIsStored(g, st, input);
    ReadyGrows(g.Get(id.node), input, st.records);
  }

  /** With a final state every ready node has its record. */
  lemma FinalHasNoReadyNode(g: Graph, records: NodeRecords, state: GraphRunState, n: Name)
    requires g.Valid() && IsFinal(g, records, state) && n in g.index && IsReady(g.Get(n), records)
    ensures n in records
  {
    hide StateOf, StatesOf, SettledState;
    SettledExactlyWithoutReadyNodes(g, records);
    StateReads(g, records, n);
  }

  /** A store whose records give a final state has no active instance. */
  lemma FinalIsIdle(g: Graph, st: Store, state: GraphRunState)
    requires C.Regular(g) && StoreInv(g, st) && IsCalmStore(g, st) && IsFinal(g, st.records, state)
    ensures st.active == {}
  {
    hide IsFinal;
    forall id | id in st.active
      ensures false
    {
      SubmittedIsReady(g, st, id);
      FinalHasNoReadyNode(g, st.records, state, id.node);
      FirstRecords(g, st, id.node);
    }
  }

  /** A handler that has seen a final state has seen every record, by induction along
      the edges: what a recorded node was submitted with was seen, so it was ready. */
  lemma {:induction false} FinalSawEverything(g: Graph, st: Store, seen: NodeRecords, state: GraphRunState, n: Name)
    requires C.Regular(g) && StoreInv(g, st) && IsCalmStore(g, st) && Seen(seen, st.records)
    requires IsFinal(g, seen, state) && n in st.records
    ensures n in seen
    decreases if n in g.index then g.Rank(n) else 0
  {
    hide IsFinal;
    FirstRecords(g, st, n);
    var node, input := g.Get(n), st.submitted[RunId(n, 0)].upstreams;
    InputIsReady(g, st, RunId(n, 0));
    SeenIsStored(g, st, seen);
    SeenIsStored(g, st, input);
    forall u | u in input
      ensures u in seen && input[u] == seen[u]
    {
      RankDecreases(g, n, u);
      FinalSawEverything(g, st, seen, state, u);
    }
    ReadyGrows(node, input, seen);
    FinalHasNoReadyNode(g, seen, state, n);
  }

  lemma FinalSawTheRecords(g: Graph, st: Store, seen: NodeRecords, state: GraphRunState)
    requires C.Regular(g) && StoreInv(g, st) && IsCalmStore(g, st) && Seen(seen, st.records)
    requires IsFinal(g, seen, state)
    ensures seen == st.records
  {
    hide IsFinal;
    SeenIsStored(g, st, seen);
    forall n | n in st.records
      ensures n in seen
    {
      FinalSawEverything(g, st, seen, state, n);
    }
  }

  lemma SubmitStaysCalm(g: Graph, st: Store, id: RunId, payload: Payload)
    requires g.Valid() && IsCalmStore(g, st) && id.rerun == 0
    ensures IsCalmStore(g, Submit(st, id, payload))
  {
    hide IsFinal;
  }

  lemma SubmittingStaysCalm(g: Graph, w: World, h: nat, choice: Name)
    requires g.Valid() && CalmInv(g, w) && h in w.handlers && w.handlers[h].Submitting?
    requires HandlerIn(g, w.handlers[h])
    ensures CalmInv(g, GoWith(g, w, h, choice))
  {
    hide StateOf, StatesOf, SettledState, UpstreamRecords, Submit, IsCalmStore, CurrentRecords;
    var Submitting(run, seen, todo) := w.handlers[h];
    C.AllCurrent(run, seen);
    if choice in todo {
      if StateOf(g, seen, choice) == Ready {
        UnrecordedState(g, seen, choice);
        SubmitStaysCalm(g, w.store, RunId(choice, 0),
                        Payload(run.definition, UpstreamRecords(g.Get(choice), seen), None));
      }
    }
  }

  lemma SettlingStaysCalm(g: Graph, w: World, h: nat, choice: Name)
    requires C.Regular(g) && WorldInv(g, w) && CalmInv(g, w) && h in w.handlers && w.handlers[h].Settling?
    ensures HandlerIn(g, w.handlers[h]) && CalmInv(g, GoWith(g, w, h, choice))
  {
    hide IsFinal, StoreInv, RequestsInv;
    var Settling(run, seen, state) := w.handlers[h];
    assert HandlerInv(g, w, h);
    FinalSawTheRecords(g, w.store, seen, state);
  }

  lemma RootingStaysCalm(g: Graph, w: World, h: nat, choice: Name)
    requires g.Valid() && CalmInv(g, w) && h in w.handlers && w.handlers[h].Rooting?
    requires HandlerIn(g, w.handlers[h])
    ensures CalmInv(g, GoWith(g, w, h, choice))
  {
    hide StateOf, StatesOf, SettledState, Submit, IsCalmStore;
    var Rooting(definition, todo, _) := w.handlers[h];
    if choice in todo {
      SubmitStaysCalm(g, w.store, RunId(choice, 0), Payload(definition, map[], None));
    }
  }

  lemma GoStaysCalm(g: Graph, w: World, h: nat, choice: Name)
    requires C.Regular(g) && WorldInv(g, w) && CalmInv(g, w) && h in w.handlers
    ensures CalmInv(g, Next(g, w, Go(h, choice)))
  {
    hide IsFinal, WorldInv, StateOf, StatesOf, SettledState, CurrentRecords, UpstreamRecords, Submit, Settled, Marked;
    HandlerIsIn(g, w, h);
    match w.handlers[h]
    case Submitting(_, _, _) => SubmittingStaysCalm(g, w, h, choice);
    case Settling(_, _, _) => SettlingStaysCalm(g, w, h, choice);
    case Rooting(_, _, _) => RootingStaysCalm(g, w, h, choice);
    case _ =>
  }

  lemma HandlerIsIn(g: Graph, w: World, h: nat)
    requires g.Valid() && WorldInv(g, w) && h in w.handlers
    ensures HandlerIn(g, w.handlers[h])
  {
    hide StoreInv, RequestsInv, HandlerOk;
    assert HandlerInv(g, w, h);
  }

  lemma TerminationStaysCalm(g: Graph, w: World, s: Step)
    requires C.Regular(g) && WorldInv(g, w) && CalmInv(g, w) && s.TerminateRun?
    ensures CalmInv(g, Next(g, w, s))
  {
    hide IsFinal, StoreInv, RequestsInv;
    if S.IsSettled(w.store) {
      FinalIsIdle(g, w.store, w.store.run.value.state);
    }
  }

  lemma NextStaysCalm(g: Graph, w: World, s: Step)
    requires C.Regular(g) && WorldInv(g, w) && CalmInv(g, w) && !s.BeginRerun?
    ensures CalmInv(g, Next(g, w, s))
  {
    hide IsFinal, WorldInv, StoreInv, GoWith, Terminate;
    match s
    case Go(h, choice) =>
      if h in w.handlers {
        GoStaysCalm(g, w, h, choice);
      }
    case TerminateRun(_, _, _, _) => TerminationStaysCalm(g, w, s);
    case _ =>
  }

  ghost predicate HasNoRerun(steps: seq<Step>) {
    forall k {:trigger steps[k]} :: 0 <= k < |steps| ==> !steps[k].BeginRerun?
  }

  lemma {:induction false} RunStaysCalm(g: Graph, steps: seq<Step>)
    requires C.Regular(g) && HasNoRerun(steps)
    ensures CalmInv(g, After(g, steps))
    decreases |steps|
  {
    hide CalmInv, WorldInv, Next;
    if steps == [] {
      NothingIsCalm(g);
    } else {
      var front := steps[..|steps| - 1];
      RunStaysCalm(g, front);
      EveryRunKeeps(g, front);
      NextStaysCalm(g, After(g, front), steps[|steps| - 1]);
    }
  }

  lemma NothingIsCalm(g: Graph)
    requires g.Valid()
    ensures CalmInv(g, Initial)
  {
  }

  /** In every interleaved run without a rerun, of a graph whose one-failed nodes have
      upstreams, a settled run has no active instance and no ready or waiting node,
      and its state is the one that its records give. */
  lemma SettledWithoutRerunIsFinished(g: Graph, steps: seq<Step>)
    requires C.Regular(g) && HasNoRerun(steps) && S.IsSettled(After(g, steps).store)
    ensures var st := After(g, steps).store;
            && st.active == {}
            && SettledState(StatesOf(g, st.records)) == Some(st.run.value.state)
            && (forall n :: n in g.index ==> !StateOf(g, st.records, n).IsOpen())
            && (st.run.value.state == RunComplete <==>
                  forall n :: n in g.index ==> n in st.records && st.records[n].status == Succeeded)
  {
    hide StateOf, StatesOf, SettledState, StoreInv, After;
    EveryRunKeeps(g, steps);
    RunStaysCalm(g, steps);
    var st := After(g, steps).store;
    FinalIsIdle(g, st, st.run.value.state);
    SettledExactlyWithoutReadyNodes(g, st.records);
    forall n | n in g.index
      ensures !StateOf(g, st.records, n).IsOpen()
    {
      if StateOf(g, st.records, n) == Waiting {
        var a := WaitingHasReadyAncestor(g, st.records, n);
        AncestorIsNode(g, a, n);
      }
    }
  }

  /** So no step of such a run is one of the two. */
  lemma RunWithoutRerunNeverBreaks(g: Graph, steps: seq<Step>)
    requires C.Regular(g) && HasNoRerun(steps)
    ensures IsAlwaysIdle(g, steps) && NeverBreaks(g, steps)
  {
    hide StateOf, StatesOf, SettledState, NeverBreaks, After;
    forall k | 0 <= k <= |steps|
      ensures IsIdleAt(g, steps, k)
    {
      if S.IsSettled(After(g, steps[..k]).store) {
        SettledWithoutRerunIsFinished(g, steps[..k]);
      }
    }
    RunBreaksExactly(g, steps);
  }

  // ---- The outcome of an interleaved run ----

  /** Every termination has the status of the script. */
  ghost predicate FollowsScript(script: C.Script, s: Step) {
    s.TerminateRun? && s.id.node in script ==> s.status == script[s.id.node]
  }

  lemma NextFollows(g: Graph, script: C.Script, w: World, s: Step)
    requires C.Regular(g) && script.Keys == g.index.Keys && WorldInv(g, w) && CalmInv(g, w)
    requires C.RecordsFollow(g, script, w.store.records) && FollowsScript(script, s)
    ensures C.RecordsFollow(g, script, Next(g, w, s).store.records)
  {
    hide StoreInv, RequestsInv, IsCalmStore, C.Fires, StateOf, StatesOf, SettledState, Terminate;
    if s.TerminateRun? && s.id in w.store.active && s.id in w.store.submitted {
      SubmittedIsReady(g, w.store, s.id);
      C.ReadyFires(g, script, w.store.records, s.id.node);
      RecordOfTermination(w.store, s.id, s.status, s.output, s.error);
    } else {
      OtherStepsKeepRecords(g, w, s);
    }
  }

  lemma RecordOfTermination(st: Store, id: RunId, status: RecordStatus, output: Option<Value>, error: Option<string>)
    requires id in st.submitted
    ensures var next := Terminate(st, id, status, output, error);
            && next.records.Keys == st.records.Keys + {id.node} && next.records[id.node].status == status
            && forall n :: n in st.records && n != id.node ==> next.records[n] == st.records[n]
  {
  }

  lemma OtherStepsKeepRecords(g: Graph, w: World, s: Step)
    requires g.Valid()
    requires !(s.TerminateRun? && s.id in w.store.active && s.id in w.store.submitted)
    ensures Next(g, w, s).store.records == w.store.records
  {
    hide GoWith, HandlerIn, Takes, NewRun;
    if s.Go? && s.h in w.handlers && HandlerIn(g, w.handlers[s.h]) {
      GoKeepsRecords(g, w, s.h, s.choice);
    }
  }

  lemma GoKeepsRecords(g: Graph, w: World, h: nat, choice: Name)
    requires g.Valid() && h in w.handlers && HandlerIn(g, w.handlers[h])
    ensures GoWith(g, w, h, choice).store.records == w.store.records
  {
    hide StateOf, StatesOf, SettledState, CurrentRecords, UpstreamRecords, Marked, IsReady, Settled, UnrecordedRunId;
  }

  lemma {:induction false} RunFollows(g: Graph, script: C.Script, steps: seq<Step>)
    requires C.Regular(g) && script.Keys == g.index.Keys && HasNoRerun(steps)
    requires forall k {:trigger steps[k]} :: 0 <= k < |steps| ==> FollowsScript(script, steps[k])
    ensures C.RecordsFollow(g, script, After(g, steps).store.records)
    decreases |steps|
  {
    hide CalmInv, WorldInv, Next, C.Fires;
    if steps != [] {
      var front := steps[..|steps| - 1];
      RunFollows(g, script, front);
      EveryRunKeeps(g, front);
      RunStaysCalm(g, front);
      NextFollows(g, script, After(g, front), steps[|steps| - 1]);
    }
  }

  /** With a fixed status for each node, every settled interleaved run without a rerun
      has the records of the nodes that fire, and the state they give. */
  lemma SettledInterleavedRunHasTheOutcome(g: Graph, script: C.Script, steps: seq<Step>)
    requires C.Regular(g) && script.Keys == g.index.Keys && HasNoRerun(steps)
    requires forall k {:trigger steps[k]} :: 0 <= k < |steps| ==> FollowsScript(script, steps[k])
    requires S.IsSettled(After(g, steps).store)
    ensures C.Statuses(After(g, steps).store.records) == C.Outcome(g, script)
    ensures After(g, steps).store.run.value.state == RunComplete <==>
            forall n :: n in g.index ==> C.Fires(g, script, n) && script[n] == Succeeded
  {
    hide StateOf, StatesOf, SettledState, After, C.Fires, C.Outcome, C.RecordsFollow;
    var st := After(g, steps).store;
    SettledWithoutRerunIsFinished(g, steps);
    RunFollows(g, script, steps);
    forall m | m in g.index && m !in st.records
      ensures !IsReady(g.Get(m), st.records)
    {
      StateReads(g, st.records, m);
    }
    C.QuietRecordsAreOutcome(g, script, st.records);
    C.OutcomeIsComplete(g, script, st.records);
  }

  /** Interleaving makes no difference: such a run ends with the statuses and the state
      of any settled run of whole handlers. */
  lemma InterleavedAgreesWithWhole(g: Graph, script: C.Script, steps: seq<Step>, actions: seq<S.Action>)
    requires C.Regular(g) && script.Keys == g.index.Keys && HasNoRerun(steps)
    requires forall k {:trigger steps[k]} :: 0 <= k < |steps| ==> FollowsScript(script, steps[k])
    requires forall a :: a in actions ==> C.Follows(script, a)
    requires S.IsSettled(After(g, steps).store) && S.IsSettled(S.Perform(g, Empty, actions))
    ensures C.Statuses(After(g, steps).store.records) == C.Statuses(S.Perform(g, Empty, actions).records)
    ensures After(g, steps).store.run.value.state == S.Perform(g, Empty, actions).run.value.state
  {
    hide StateOf, StatesOf, SettledState, After, C.Fires, C.Outcome, C.RecordsFollow, S.Perform;
    SettledInterleavedRunHasTheOutcome(g, script, steps);
    C.SettledRunHasTheOutcome(g, script, actions);
  }
}
