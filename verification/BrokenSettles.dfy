/**
 On which graphs a settled run can have an active instance: the runs that show it,
 built for an arbitrary graph.
 */
module BrokenSettles {
  import opened Wrappers
  import opened Json
  import opened Records
  import opened Graphs
  import opened Readiness
  import opened ReadinessLaws
  import opened Store
  import opened RunRules
  import opened RunLaws
  import opened Interleaving
  import opened InterleavingLaws
  import opened InterleavingTheorems
  import opened InterleavedSettles
  import opened Passes
  import S = Settlement
  import C = Confluence

  // ---- The runs ----

  /** On a graph with a one-failed root, the start submits the root after the settle. */
  lemma StartBreaks(g: Graph, root: Name) returns (steps: seq<Step>)
    requires g.Valid() && root in g.index && IsUnreadyRoot(g.Get(root))
    ensures HasNoRerun(steps) && !IsIdleWhenSettled(After(g, steps).store)
  {
    hide StateOf, StatesOf, SettledState, After;
    var st;
    steps, st := RunAndSettle(g, g.index.Keys);
    var handlers := map[0 := Rooting("d", g.Roots(), None)];
    ReachableFacts(g, steps, [], st, handlers);
    var after := handlers[0 := Rooting("d", g.Roots() - {root}, None)];
    assert root in g.Roots() && g.Roots() != {} && HandlerIn(g, handlers[0]);
    var submitted := Submit(st, RunId(root, 0), Payload("d", map[], None));
    steps := Step1(g, steps, [], st, handlers, Go(0, root), submitted, after);
    assert steps[0..] == steps;
  }

  /** A root has its record once no node is ready, unless no record makes it ready. */
  lemma RootIsRecorded(g: Graph, records: NodeRecords, root: Name)
    requires g.Valid() && root in g.Roots() && !IsUnreadyRoot(g.Get(root))
    requires forall n :: n in g.index ==> StateOf(g, records, n) != Ready
    ensures root in records && IsReady(g.Get(root), records)
  {
    hide StateOf;
    StateReads(g, records, root);
  }

  /** On every graph with another root, a rerun submits it after the settle. */
  lemma RerunBreaks(g: Graph, root: Name) returns (steps: seq<Step>)
    requires g.Valid() && root in g.Roots() && !IsUnreadyRoot(g.Get(root))
    ensures !IsIdleWhenSettled(After(g, steps).store)
  {
    hide StateOf, StatesOf, SettledState, After;
    var st, run;
    steps, st := RunAndSettle(g, g.index.Keys);
    RootIsRecorded(g, st.records, root);
    steps, st, run := PoiseRerun(g, steps, [], st, g.index.Keys, root);
    var handlers := map[2 := Resubmitting(run, st.records, root, None)];
    ReachableFacts(g, steps, steps, st, handlers);
    var id := RunId(root, st.records[root].rerun + 1);
    var upstreams := UpstreamRecords(g.Get(root), CurrentRecords(run, st.records));
    var submitted := Submit(st, id, Payload(st.records[root].definition, upstreams, None));
    steps := Step1(g, steps, steps, st, handlers, Go(2, ""), submitted, handlers - {2});
  }

  /** On every such graph, a settle that has passed its activity scan commits over the
      instance that a rerun of the root has submitted meanwhile. */
  lemma SettleMissesARerun(g: Graph, root: Name) returns (steps: seq<Step>, s: Step)
    requires g.Valid() && root in g.Roots() && !IsUnreadyRoot(g.Get(root))
    ensures SettlesOverActive(After(g, steps), s)
    ensures var st := After(g, steps + [s]).store;
            S.IsSettled(st) && exists k: nat :: st.active == {RunId(root, k)}
  {
    hide StateOf, StatesOf, SettledState, After, Leads, IsReady, IsFinal;
    var st, state;
    steps, st, state := RunToEnd(g, g.index.Keys);
    C.AllCurrent(st.run.value, st.records);
    RootIsRecorded(g, st.records, root);
    steps := PoiseSettle(g, steps, [], st, map[0 := Rooting("d", g.Roots(), None)], 1, state);
    var settling := map[0 := Rooting("d", g.Roots(), None)][1 := Settling(st.run.value, st.records, state)];
    NothingToMark(g, st.run.value, st.records, root);
    steps := MarkPass(g, steps, [], st, settling, 2, root);
    steps, s := SettleOverRerun(g, steps, st, settling, root, state);
  }

  lemma NothingToMark(g: Graph, run: GraphRunRecord, records: NodeRecords, root: Name)
    requires g.Valid() && root in g.index && root in records && records[root].status == Failed
    requires run.state == RunActive && run.settledAt == None
    ensures Marked(g, run, records, root) == run
  {
  }

  lemma SettleOverRerun(g: Graph, steps: seq<Step>, st: Store, handlers: HandlerMap, root: Name, state: GraphRunState)
    returns (more: seq<Step>, s: Step)
    requires g.Valid() && st.run.Some? && st.active == {} && root in st.records && st.records.Keys <= g.index.Keys
    requires 2 !in handlers && 1 in handlers && handlers[1] == Settling(st.run.value, st.records, state)
    requires state in {RunComplete, RunFailed}
    requires Leads(g, steps, steps, st, handlers[2 := Resubmitting(st.run.value, st.records, root, None)])
    ensures SettlesOverActive(After(g, more), s)
    ensures var st := After(g, more + [s]).store;
            S.IsSettled(st) && exists k: nat :: st.active == {RunId(root, k)}
  {
    hide StateOf, StatesOf, SettledState, After, CurrentRecords, UpstreamRecords;
    var run, seen := st.run.value, st.records;
    var before := handlers[2 := Resubmitting(run, seen, root, None)];
    ReachableFacts(g, steps, steps, st, before);
    var id := RunId(root, seen[root].rerun + 1);
    var upstreams := UpstreamRecords(g.Get(root), CurrentRecords(run, seen));
    var submitted := Submit(st, id, Payload(seen[root].definition, upstreams, None));
    assert before - {2} == handlers;
    more := Step1(g, steps, steps, st, before, Go(2, ""), submitted, handlers);
    s := Go(1, "");
    AfterAppend(g, more, s);
    assert submitted.active == {id};
  }

  // ---- The exact graphs ----

  /** Without a rerun, a settled run never has an active instance exactly on the graphs
      whose one-failed nodes have upstreams. */
  lemma IdleWithoutRerunExactly(g: Graph)
    requires g.Valid()
    ensures (forall steps {:trigger After(g, steps)} :: HasNoRerun(steps) ==> IsIdleWhenSettled(After(g, steps).store))
            <==> C.Regular(g)
  {
    hide StateOf, StatesOf, SettledState, After;
    if C.Regular(g) {
      forall steps {:trigger After(g, steps)} | HasNoRerun(steps)
        ensures IsIdleWhenSettled(After(g, steps).store)
      {
        if S.IsSettled(After(g, steps).store) {
          SettledWithoutRerunIsFinished(g, steps);
        }
      }
    } else {
      var root :| root in g.index && g.Get(root).Rule() == OneFailed && g.Get(root).upstreams == {};
      var steps := StartBreaks(g, root);
    }
  }

  /** With reruns, on no graph that has a node. */
  lemma IdleExactly(g: Graph)
    requires g.Valid()
    ensures (forall steps {:trigger After(g, steps)} :: IsIdleWhenSettled(After(g, steps).store)) <==> g.index == map[]
  {
    hide StateOf, StatesOf, SettledState, After;
    if g.index == map[] {
      forall steps {:trigger After(g, steps)}
        ensures IsIdleWhenSettled(After(g, steps).store)
      {
        EmptyGraphIsIdle(g, steps);
      }
    } else {
      var root := C.FirstRoot(g);
      var steps;
      if IsUnreadyRoot(g.Get(root)) {
        steps := StartBreaks(g, root);
      } else {
        steps := RerunBreaks(g, root);
      }
    }
  }

  lemma EmptyGraphIsIdle(g: Graph, steps: seq<Step>)
    requires g.Valid() && g.index == map[]
    ensures After(g, steps).store.active == {}
  {
    hide After;
    EveryRunKeeps(g, steps);
  }
}
