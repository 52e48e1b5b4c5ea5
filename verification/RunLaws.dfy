/** What a read of the store allows later: submits and writes of the run record. */
module RunLaws {
  import opened Wrappers
  import opened Records
  import opened Graphs
  import opened Readiness
  import opened Scopes
  import opened Store
  import opened RunRules

  /** The run record was read before the node records. */
  ghost predicate ReadAfter(run: GraphRunRecord, seen: NodeRecords) {
    forall n {:trigger n in seen} :: n in seen && n in run.expectedReruns ==>
      run.expectedReruns[n] <= seen[n].rerun + 1
  }

  ghost predicate View(run: GraphRunRecord, seen: NodeRecords, st: Store) {
    SeenRun(run, st) && Seen(seen, st.records) && ReadAfter(run, seen)
  }

  ghost predicate MayRerun(g: Graph, marked: GraphRunRecord, seen: NodeRecords, node: Name)
    requires g.Valid() && node in g.index
  {
    && node in seen
    && (seen[node].status == Succeeded ==> !marked.IsCurrent(node, seen[node]))
    && IsReady(g.Get(node), CurrentRecords(marked, seen))
  }

  lemma ViewStays(run: GraphRunRecord, seen: NodeRecords, st: Store, next: Store)
    requires View(run, seen, st) && Later(st, next)
    ensures View(run, seen, next)
  {
    SeenRunStays(run, st, next);
    SeenStays(seen, st.records, next.records);
  }

  lemma ReadOne(run: GraphRunRecord, seen: NodeRecords, st: Store, n: Name)
    requires View(run, seen, st) && n in st.records
    ensures View(run, seen[n := st.records[n]], st)
  {
  }

  /** After the mark, a succeeded record of the rerun node is superseded. */
  lemma MarkedSupersedes(g: Graph, run: GraphRunRecord, seen: NodeRecords, node: Name)
    requires g.Valid() && node in g.index && node in seen
    requires IsReady(g.Get(node), CurrentRecords(Marked(g, run, seen, node), seen))
    ensures MayRerun(g, Marked(g, run, seen, node), seen, node)
  {
    assert node in ScopeOf(g, node);
  }

  /** A ready node of a view can be submitted at the count after its record. */
  lemma ViewMaySubmit(g: Graph, st: Store, run: GraphRunRecord, seen: NodeRecords, n: Name, payload: Payload)
    requires g.Valid() && StoreInv(g, st) && SeenRun(run, st) && Seen(seen, st.records)
    requires n in g.index && IsReady(g.Get(n), CurrentRecords(run, seen))
    requires n in seen && seen[n].status == Succeeded ==> !run.IsCurrent(n, seen[n])
    requires payload.upstreams == UpstreamRecords(g.Get(n), CurrentRecords(run, seen))
    requires payload.request.Some? ==> payload.request.value !in st.requests
    ensures MaySubmit(g, st, RunId(n, NextCount(seen, n)), payload)
  {
    var node := g.Get(n);
    ReadyFromUpstreams(node, CurrentRecords(run, seen));
    if n in seen && n in st.records && seen[n] == st.records[n] && seen[n].status == Succeeded {
      assert n in run.expectedReruns;
    }
  }

  lemma ReadyFromUpstreams(node: Node, records: NodeRecords)
    requires IsReady(node, records)
    ensures IsReady(node, UpstreamRecords(node, records))
  {
    if node.Rule() == OneFailed {
      var u :| u in node.upstreams && u in records && records[u].status == Failed;
      assert UpstreamRecords(node, records)[u].status == Failed;
    }
  }

  lemma SettledKeeps(g: Graph, st: Store, run: GraphRunRecord, seen: NodeRecords, state: GraphRunState)
    requires StoreInv(g, st) && st.run == Some(run) && View(run, seen, st) && state in {RunComplete, RunFailed}
    ensures StoreInv(g, st.(run := Some(Settled(run, seen, state, st.clock))))
    ensures Later(st, st.(run := Some(Settled(run, seen, state, st.clock))))
  {
    PutRunKeeps(g, st, Settled(run, seen, state, st.clock));
  }

  lemma MarkedKeeps(g: Graph, st: Store, run: GraphRunRecord, seen: NodeRecords, node: Name)
    requires g.Valid() && StoreInv(g, st) && st.run == Some(run) && View(run, seen, st) && node in g.index
    ensures StoreInv(g, st.(run := Some(Marked(g, run, seen, node))))
    ensures Later(st, st.(run := Some(Marked(g, run, seen, node))))
    ensures SeenRun(Marked(g, run, seen, node), st.(run := Some(Marked(g, run, seen, node))))
  {
    PutRunKeeps(g, st, Marked(g, run, seen, node));
  }

  lemma LaterReflexive(g: Graph, st: Store)
    requires StoreInv(g, st)
    ensures Later(st, st)
  {
  }
}
