/** The guarantees of the interleaved protocol, for every run of every graph. */
module InterleavingTheorems {
  import opened Wrappers
  import opened Json
  import opened Records
  import opened Graphs
  import opened Readiness
  import opened ReadinessLaws
  import opened Scopes
  import opened Store
  import opened RunRules
  import opened RunLaws
  import opened Interleaving
  import opened InterleavingLaws

  /** The counts submitted for a node are exactly those below its next count and,
      when an instance is active, the next count. That instance is the unrecorded
      instance of the node, so at most one is active. */
  lemma SubmittedCountsArePrefix(g: Graph, steps: seq<Step>)
    requires g.Valid()
    ensures var st := After(g, steps).store;
            && (forall n, c: nat {:trigger RunId(n, c)} :: RunId(n, c) in st.submitted <==>
                  c < NextCount(st.records, n) || RunId(n, c) in st.active)
            && (forall id :: id in st.active ==>
                  && id.rerun == NextCount(st.records, id.node)
                  && st.run.Some?
                  && UnrecordedRunId(st.run.value, st.records, id.node) == Some(id))
  {
    EveryRunKeeps(g, steps);
    var st := After(g, steps).store;
    forall n, c: nat {:trigger RunId(n, c)} |
      c < NextCount(st.records, n) || RunId(n, c) in st.active
      ensures RunId(n, c) in st.submitted
    {
    }
  }

  /** The record of a node is that of its highest terminated count. */
  lemma RecordIsHighestTerminated(g: Graph, steps: seq<Step>)
    requires g.Valid()
    ensures var st := After(g, steps).store;
            forall n, c: nat {:trigger RunId(n, c)} ::
              RunId(n, c) in st.submitted && RunId(n, c) !in st.active <==>
              n in st.records && c <= st.records[n].rerun
  {
    EveryRunKeeps(g, steps);
  }

  /** Every expected count is at most one past the count of the record of its node, so
      the next termination of a node makes its record current. */
  lemma OneTerminationMakesCurrent(g: Graph, steps: seq<Step>, id: RunId, status: RecordStatus,
                                   output: Option<Value>, error: Option<string>)
    requires g.Valid() && id in After(g, steps).store.active
    ensures var st := After(g, steps).store;
            st.run.Some? && forall n :: n in st.run.value.expectedReruns ==>
              n in st.records && st.run.value.expectedReruns[n] <= st.records[n].rerun + 1
    ensures var st := After(g, steps + [TerminateRun(id, status, output, error)]).store;
            && id.node in st.records && st.records[id.node].rerun == id.rerun
            && st.records[id.node].status == status
            && st.run.Some? && st.run.value.IsCurrent(id.node, st.records[id.node])
  {
    EveryRunKeeps(g, steps);
    AfterAppend(g, steps, TerminateRun(id, status, output, error));
  }

  lemma AfterAppend(g: Graph, steps: seq<Step>, s: Step)
    requires g.Valid()
    ensures After(g, steps + [s]) == Next(g, After(g, steps), s)
  {
    assert (steps + [s])[..|steps|] == steps;
  }

  /** No submit, record or unreached expected count is ever lost. */
  lemma {:induction false} HistoryOnlyGrows(g: Graph, steps: seq<Step>, more: seq<Step>)
    requires g.Valid()
    ensures Later(After(g, steps).store, After(g, steps + more).store)
    decreases |more|
  {
    EveryRunKeeps(g, steps);
    if more == [] {
      assert steps + more == steps;
      LaterReflexive(g, After(g, steps).store);
    } else {
      var shorter := more[..|more| - 1];
      var last := more[|more| - 1];
      HistoryOnlyGrows(g, steps, shorter);
      EveryRunKeeps(g, steps + shorter);
      NextKeeps(g, After(g, steps + shorter), last);
      AfterAppend(g, steps + shorter, last);
      assert steps + shorter + [last] == steps + more;
      LaterTransitive(After(g, steps).store, After(g, steps + shorter).store, After(g, steps + more).store);
    }
  }

  /** The input of every instance is of stored upstream records that satisfy the
      trigger rule; only the first instance of a root may have none. */
  lemma InputsSatisfyTheRule(g: Graph, steps: seq<Step>, id: RunId)
    requires g.Valid() && id in After(g, steps).store.submitted
    ensures id.node in g.index
    ensures var node, input := g.Get(id.node), After(g, steps).store.submitted[id].upstreams;
            && input.Keys <= node.upstreams
            && (IsReady(node, input) || (id.rerun == 0 && node.upstreams == {}))
            && Seen(input, After(g, steps).store.records)
  {
    EveryRunKeeps(g, steps);
  }

  // ---- Requests ----

  /** The instances submitted by a step. */
  ghost function NewlySubmitted(before: Store, after: Store): set<RunId> {
    after.submitted.Keys - before.submitted.Keys
  }

  /** A rerun outcome is recorded by the step that submits its instance, and by no
      other: the record and the submit are one commit. */
  lemma RerunIsRecordedWithItsSubmit(g: Graph, steps: seq<Step>, s: Step, r: RequestId, id: RunId)
    requires g.Valid()
    ensures var before, after := After(g, steps).store, After(g, steps + [s]).store;
            (r in after.requests && after.requests[r].outcome == Rerun(id) && r !in before.requests) <==>
            (id in NewlySubmitted(before, after) && after.submitted[id].request == Some(r))
  {
    EveryRunKeeps(g, steps);
    EveryRunKeeps(g, steps + [s]);
    NextKeeps(g, After(g, steps), s);
    AfterAppend(g, steps, s);
  }

  /** One request submits at most one instance, however often it is delivered. */
  lemma RequestSubmitsAtMostOnce(g: Graph, steps: seq<Step>, a: RunId, b: RunId)
    requires g.Valid()
    requires a in After(g, steps).store.submitted && b in After(g, steps).store.submitted
    requires After(g, steps).store.submitted[a].request.Some?
    requires After(g, steps).store.submitted[a].request == After(g, steps).store.submitted[b].request
    ensures a == b
  {
    EveryRunKeeps(g, steps);
  }

  /** Once a request has a record, the record stays and a delivery changes nothing. */
  lemma RecordedRequestIsInert(g: Graph, steps: seq<Step>, more: seq<Step>, r: RequestId, s: Step)
    requires g.Valid() && r in After(g, steps).store.requests
    requires (s.BeginStart? || s.BeginRerun? || s.BeginCancel?) && s.request == Some(r)
    ensures r in After(g, steps + more).store.requests
    ensures After(g, steps + more).store.requests[r] == After(g, steps).store.requests[r]
    ensures Next(g, After(g, steps + more), s) == After(g, steps + more)
  {
    HistoryOnlyGrows(g, steps, more);
  }
}
