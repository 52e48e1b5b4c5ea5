/**
 The stored state of one graph run and the commits that change it: the submit of
 a task instance, its termination, and a write of the graph run record.

 A run id that was submitted once is never submitted again, and a termination
 writes the node record and the event in one commit.
 */
module Store {
  import opened Wrappers
  import opened Json
  import opened Records
  import opened Graphs
  import opened Readiness

  type RequestId = string

  /** A task instance of the graph run: the node and the rerun count. */
  datatype RunId = RunId(node: Name, rerun: nat)

  /** What a submit fixes: the definition, the upstream records of the input, and
      the request whose record commits with the submit. */
  datatype Payload = Payload(definition: string, upstreams: NodeRecords, request: Option<RequestId>)

  datatype RequestOutcome = Started(isNew: bool) | Rerun(runId: RunId) | CancelledRun | Refused(reason: string)

  datatype RequestRecord = RequestRecord(handledAt: nat, outcome: RequestOutcome)

  datatype Store = Store(
    run: Option<GraphRunRecord>,
    records: NodeRecords,
    submitted: map<RunId, Payload>,
    active: set<RunId>,
    events: set<Name>,
    requests: map<RequestId, RequestRecord>,
    clock: nat)

  const Empty := Store(None, map[], map[], {}, {}, map[], 0)

  /** The rerun count of the next task instance of a node. */
  function NextCount(records: NodeRecords, n: Name): nat {
    if n in records then records[n].rerun + 1 else 0
  }

  /** The count of the instance of `n` without a current record, if it can have one
      (swale/src/task.rs, unrecorded_run_id). */
  function UnrecordedRunId(run: GraphRunRecord, records: NodeRecords, n: Name): Option<RunId> {
    if n in records && records[n].status == Succeeded && run.IsCurrent(n, records[n]) then None
    else Some(RunId(n, NextCount(records, n)))
  }

  /** The records of the upstreams of a node (swale/src/scheduler.rs, upstream_records). */
  function UpstreamRecords(node: Node, records: NodeRecords): NodeRecords {
    map u | u in node.upstreams && u in records :: records[u]
  }

  function Submit(st: Store, id: RunId, payload: Payload): Store {
    if id in st.submitted then st
    else st.(submitted := st.submitted[id := payload],
             active := st.active + {id},
             requests := if payload.request.Some?
                         then st.requests[payload.request.value := RequestRecord(st.clock, Rerun(id))]
                         else st.requests)
  }

  /** The record a terminated instance leaves (swale/src/hook.rs, record). */
  function RecordOf(st: Store, id: RunId, status: RecordStatus, output: Option<Value>, error: Option<string>): NodeRecord
    requires id in st.submitted
  {
    NodeRecord(status, st.submitted[id].definition, id.rerun, st.clock,
               if status == Succeeded then output else None, error)
  }

  function Terminate(st: Store, id: RunId, status: RecordStatus, output: Option<Value>, error: Option<string>): Store
    requires id in st.submitted
  {
    st.(records := st.records[id.node := RecordOf(st, id, status, output, error)],
        active := st.active - {id},
        events := st.events + {id.node})
  }

  // ---- The invariant of every reachable store ----

  /** Each instance was submitted in count order: every submitted count below the
      next one has terminated, and only the next one can be active. */
  ghost predicate CountsInv(st: Store) {
    && (forall id {:trigger id in st.submitted} :: id in st.submitted ==>
          (id.rerun < NextCount(st.records, id.node) && id !in st.active)
          || (id.rerun == NextCount(st.records, id.node) && id in st.active))
    && (forall n, k: nat {:trigger RunId(n, k)} :: n in st.records && k <= st.records[n].rerun ==>
          RunId(n, k) in st.submitted)
    && st.active <= st.submitted.Keys
  }

  /** An expected count is at most one past the count of the record. */
  ghost predicate ExpectedInv(run: GraphRunRecord, records: NodeRecords) {
    forall n {:trigger n in run.expectedReruns} :: n in run.expectedReruns ==>
      n in records && run.expectedReruns[n] <= records[n].rerun + 1
  }

  /** An active instance is the unrecorded instance of its node. */
  ghost predicate ActiveInv(run: GraphRunRecord, st: Store) {
    forall id {:trigger id in st.active} :: id in st.active ==>
      UnrecordedRunId(run, st.records, id.node) == Some(id)
  }

  /** The upstream records of an input, as they were stored when it was built. */
  ghost predicate PayloadInv(g: Graph, st: Store) {
    forall id {:trigger id in st.submitted} :: id in st.submitted ==>
      id.node in g.index && g.Indexed() && PayloadOk(g.Get(id.node), id, st.submitted[id], st.records)
  }

  ghost predicate PayloadOk(node: Node, id: RunId, payload: Payload, records: NodeRecords) {
    && payload.upstreams.Keys <= node.upstreams
    && Seen(payload.upstreams, records)
    && (IsReady(node, payload.upstreams) || (id.rerun == 0 && node.upstreams == {}))
  }

  ghost predicate RunInv(run: GraphRunRecord) {
    run.settledAt == None <==> run.state == RunActive
  }

  ghost predicate StoreInv(g: Graph, st: Store) {
    && st.records.Keys <= g.index.Keys
    && CountsInv(st)
    && PayloadInv(g, st)
    && match st.run
       case None => st.submitted == map[]
       case Some(run) => RunInv(run) && ExpectedInv(run, st.records) && ActiveInv(run, st)
  }

  // ---- What only grows ----

  /** `seen` was read from `records` at some earlier time. */
  ghost predicate Seen(seen: NodeRecords, records: NodeRecords) {
    forall n {:trigger n in seen} :: n in seen ==>
      n in records && (seen[n].rerun < records[n].rerun || seen[n] == records[n])
  }

  /** An expected count that is not reached stays expected. */
  ghost predicate Expects(old_: GraphRunRecord, run: GraphRunRecord, records: NodeRecords) {
    forall n {:trigger n in old_.expectedReruns} :: n in old_.expectedReruns ==>
      && n in records
      && old_.expectedReruns[n] <= records[n].rerun + 1
      && (records[n].rerun < old_.expectedReruns[n] ==>
            n in run.expectedReruns && run.expectedReruns[n] == old_.expectedReruns[n])
  }

  /** `run` was read from the store at some earlier time. */
  ghost predicate SeenRun(run: GraphRunRecord, st: Store) {
    st.run.Some? && Expects(run, st.run.value, st.records)
  }

  /** `next` can follow `st`: no submit, record or unreached expectation is lost. */
  ghost predicate Later(st: Store, next: Store) {
    && Seen(st.records, next.records)
    && (forall id {:trigger id in st.submitted} :: id in st.submitted ==>
          id in next.submitted && next.submitted[id] == st.submitted[id])
    && (forall r {:trigger r in st.requests} :: r in st.requests ==>
          r in next.requests && next.requests[r] == st.requests[r])
    && (st.run.Some? ==> SeenRun(st.run.value, next))
  }

  lemma SeenStays(seen: NodeRecords, records: NodeRecords, next: NodeRecords)
    requires Seen(seen, records) && Seen(records, next)
    ensures Seen(seen, next)
  {
  }

  lemma SeenRunStays(run: GraphRunRecord, st: Store, next: Store)
    requires SeenRun(run, st) && Later(st, next)
    ensures SeenRun(run, next)
  {
  }

  lemma LaterTransitive(a: Store, b: Store, c: Store)
    requires Later(a, b) && Later(b, c)
    ensures Later(a, c)
  {
  }

  // ---- Each commit keeps the invariant ----

  /** An instance may be submitted when its count was terminated before, is active,
      or is the unrecorded one. */
  ghost predicate MaySubmit(g: Graph, st: Store, id: RunId, payload: Payload) {
    && st.run.Some? && g.Indexed() && id.node in g.index
    && id.rerun <= NextCount(st.records, id.node)
    && (id.rerun == NextCount(st.records, id.node) ==>
          UnrecordedRunId(st.run.value, st.records, id.node) == Some(id))
    && (payload.request.Some? ==> payload.request.value !in st.requests)
    && (id.rerun == NextCount(st.records, id.node) ==> PayloadOk(g.Get(id.node), id, payload, st.records))
  }

  lemma SubmitKeeps(g: Graph, st: Store, id: RunId, payload: Payload)
    requires StoreInv(g, st) && MaySubmit(g, st, id, payload)
    ensures StoreInv(g, Submit(st, id, payload))
    ensures Later(st, Submit(st, id, payload))
  {
    hide PayloadInv, CountsInv, ActiveInv, PayloadOk;
    SubmitCounts(st, id, payload);
    if id !in st.submitted {
      SubmitPayload(g, st, id, payload);
      SubmitActive(st.run.value, st, id, payload);
    }
  }

  lemma SubmitCounts(st: Store, id: RunId, payload: Payload)
    requires CountsInv(st) && id.rerun <= NextCount(st.records, id.node)
    ensures CountsInv(Submit(st, id, payload))
    ensures id !in st.submitted ==> id.rerun == NextCount(st.records, id.node)
  {
  }

  lemma SubmitPayload(g: Graph, st: Store, id: RunId, payload: Payload)
    requires PayloadInv(g, st) && g.Indexed() && id.node in g.index && id !in st.submitted
    requires PayloadOk(g.Get(id.node), id, payload, st.records)
    ensures PayloadInv(g, Submit(st, id, payload))
  {
    hide PayloadOk;
  }

  lemma SubmitActive(run: GraphRunRecord, st: Store, id: RunId, payload: Payload)
    requires ActiveInv(run, st) && UnrecordedRunId(run, st.records, id.node) == Some(id)
    ensures ActiveInv(run, Submit(st, id, payload))
  {
    hide UnrecordedRunId;
  }

  lemma TerminateKeeps(g: Graph, st: Store, id: RunId, status: RecordStatus, output: Option<Value>, error: Option<string>)
    requires StoreInv(g, st) && id in st.active
    ensures StoreInv(g, Terminate(st, id, status, output, error))
    ensures Later(st, Terminate(st, id, status, output, error))
  {
    hide PayloadInv, CountsInv;
    ActiveIsNode(g, st, id);
    var next := Terminate(st, id, status, output, error);
    TerminateCounts(st, id, status, output, error);
    PayloadsStay(g, st, next);
  }

  lemma TerminateCounts(st: Store, id: RunId, status: RecordStatus, output: Option<Value>, error: Option<string>)
    requires CountsInv(st) && id in st.active
    ensures CountsInv(Terminate(st, id, status, output, error))
    ensures Seen(st.records, Terminate(st, id, status, output, error).records)
    ensures id.rerun == NextCount(st.records, id.node)
  {
  }

  lemma ActiveIsNode(g: Graph, st: Store, id: RunId)
    requires CountsInv(st) && PayloadInv(g, st) && id in st.active
    ensures id in st.submitted && id.node in g.index
  {
  }

  lemma PayloadsStay(g: Graph, st: Store, next: Store)
    requires PayloadInv(g, st) && next.submitted == st.submitted && Seen(st.records, next.records)
    ensures PayloadInv(g, next)
  {
    forall id | id in next.submitted
      ensures PayloadOk(g.Get(id.node), id, next.submitted[id], next.records)
    {
      SeenStays(st.submitted[id].upstreams, st.records, next.records);
    }
  }

  /** A write of the graph run record keeps the unreached expectations. */
  lemma PutRunKeeps(g: Graph, st: Store, run: GraphRunRecord)
    requires StoreInv(g, st) && st.run.Some?
    requires RunInv(run) && ExpectedInv(run, st.records) && Expects(st.run.value, run, st.records)
    ensures StoreInv(g, st.(run := Some(run)))
    ensures Later(st, st.(run := Some(run)))
  {
  }

  lemma CreateRunKeeps(g: Graph, st: Store, run: GraphRunRecord)
    requires StoreInv(g, st) && st.run == None
    requires RunInv(run) && run.expectedReruns == map[]
    ensures StoreInv(g, st.(run := Some(run)))
    ensures Later(st, st.(run := Some(run)))
  {
    assert st.active == {};
  }

  lemma RecordedWasSubmitted(st: Store, n: Name)
    requires CountsInv(st) && n in st.records
    ensures RunId(n, st.records[n].rerun) in st.submitted
  {
  }

  lemma NothingBeforeTheRun(g: Graph, st: Store)
    requires StoreInv(g, st) && st.run == None
    ensures st.records == map[] && st.active == {}
  {
    if st.records.Keys != {} {
      var n :| n in st.records;
      RecordedWasSubmitted(st, n);
    }
  }
}
