/** What each handler of the scheduler does to the store when it runs as one step. */
module Handlers {
  import opened Wrappers
  import opened Json
  import opened Records
  import opened Graphs
  import opened Readiness
  import opened Scopes
  import opened Store
  import opened RunRules

  /** The instances that an advance over `candidates` submits: those of ready nodes. */
  ghost function ReadyRuns(g: Graph, run: GraphRunRecord, records: NodeRecords, candidates: set<Name>): set<RunId>
    requires g.Valid() && candidates <= g.index.Keys
  {
    set n | n in candidates && StateOf(g, CurrentRecords(run, records), n) == Ready
      :: RunId(n, NextCount(records, n))
  }

  function PayloadOf(g: Graph, run: GraphRunRecord, records: NodeRecords, n: Name): Payload
    requires g.Indexed() && n in g.index
  {
    Payload(run.definition, UpstreamRecords(g.Get(n), CurrentRecords(run, records)), None)
  }

  ghost function ReadyInputs(g: Graph, run: GraphRunRecord, records: NodeRecords, candidates: set<Name>): map<RunId, Payload>
    requires g.Valid() && candidates <= g.index.Keys
  {
    map id | id in ReadyRuns(g, run, records, candidates) :: PayloadOf(g, run, records, id.node)
  }

  /** The idempotent submits of several instances. */
  function SubmitAll(st: Store, inputs: map<RunId, Payload>): Store {
    var new_ := inputs - st.submitted.Keys;
    st.(submitted := st.submitted + new_, active := st.active + new_.Keys)
  }

  lemma SubmitAllGrows(st: Store, inputs: map<RunId, Payload>, id: RunId, payload: Payload)
    requires payload.request == None && (id in inputs ==> inputs[id] == payload)
    ensures SubmitAll(st, inputs[id := payload]) == Submit(SubmitAll(st, inputs), id, payload)
  {
    var before, after := inputs - st.submitted.Keys, inputs[id := payload] - st.submitted.Keys;
    if id in st.submitted {
      assert after == before;
    } else {
      assert after == before[id := payload];
      assert after.Keys == before.Keys + {id};
      if id in before {
        assert after == before;
      } else {
        assert st.submitted + after == (st.submitted + before)[id := payload];
      }
    }
  }

  ghost function SubmitReady(g: Graph, st: Store, run: GraphRunRecord, candidates: set<Name>): Store
    requires g.Valid() && candidates <= g.index.Keys
  {
    SubmitAll(st, ReadyInputs(g, run, st.records, candidates))
  }

  predicate IsActiveUnrecorded(st: Store, run: GraphRunRecord, n: Name) {
    UnrecordedRunId(run, st.records, n).Some? && UnrecordedRunId(run, st.records, n).value in st.active
  }

  ghost predicate HasActiveUnrecorded(g: Graph, st: Store, run: GraphRunRecord) {
    exists n {:trigger IsActiveUnrecorded(st, run, n)} :: n in g.index && IsActiveUnrecorded(st, run, n)
  }

  ghost function ActiveUnrecorded(g: Graph, st: Store, run: GraphRunRecord): set<RunId> {
    set n | n in g.index && IsActiveUnrecorded(st, run, n) :: UnrecordedRunId(run, st.records, n).value
  }

  /** The run is finished, and no unrecorded instance is active. */
  ghost predicate CanSettle(g: Graph, st: Store, run: GraphRunRecord)
    requires g.Valid()
  {
    SettledState(StatesOf(g, CurrentRecords(run, st.records))).Some? && !HasActiveUnrecorded(g, st, run)
  }

  ghost function SettleTo(g: Graph, st: Store, run: GraphRunRecord): Store
    requires g.Valid()
  {
    if CanSettle(g, st, run) then
      st.(run := Some(Settled(run, st.records, SettledState(StatesOf(g, CurrentRecords(run, st.records))).value,
                              st.clock)))
    else st
  }

  ghost function AdvanceTo(g: Graph, st: Store, candidates: set<Name>): Store
    requires g.Valid() && candidates <= g.index.Keys && st.run.Some?
  {
    SettleTo(g, SubmitReady(g, st, st.run.value, candidates), st.run.value)
  }

  predicate IsActive(st: Store) {
    st.run.Some? && st.run.value.state == RunActive
  }

  function FirstRuns(roots: set<Name>): set<RunId> {
    set n | n in roots :: RunId(n, 0)
  }

  function RootInputs(definition: string, roots: set<Name>): map<RunId, Payload> {
    map id | id in FirstRuns(roots) :: Payload(definition, map[], None)
  }

  ghost function StartTo(g: Graph, st: Store, definition: string): Store
    requires g.Valid()
  {
    StartSome(st, definition, g.Roots())
  }

  /** A start that has submitted `roots`. */
  function StartSome(st: Store, definition: string, roots: set<Name>): Store {
    if st.run.Some? then st
    else SubmitAll(st.(run := Some(NewRun(definition, st.clock))), RootInputs(definition, roots))
  }

  ghost function EventTo(g: Graph, st: Store, n: Name): Store
    requires g.Valid()
  {
    if IsActive(st) && n in g.index then AdvanceTo(g, st, g.Get(n).downstreams) else st
  }

  ghost function ReconcileTo(g: Graph, st: Store): Store
    requires g.Valid()
  {
    if IsActive(st) then AdvanceTo(g, st, g.index.Keys) else st
  }

  datatype RerunOutcome =
    | Submitted(id: RunId)
    | StillActive(id: RunId)
    | NoRecord
    | NotReady
    | Unknown

  ghost function RerunTo(g: Graph, st: Store, node: Name, request: Option<RequestId>): (Store, RerunOutcome)
    requires g.Valid()
  {
    if st.run == None || node !in g.index then (st, Unknown)
    else if node !in st.records then (st, NoRecord)
    else
      var marked := Marked(g, st.run.value, st.records, node);
      var current := CurrentRecords(marked, st.records);
      var id := RunId(node, st.records[node].rerun + 1);
      if !IsReady(g.Get(node), current) then (st, NotReady)
      else
        var payload := Payload(st.records[node].definition, UpstreamRecords(g.Get(node), current), request);
        (Submit(st.(run := Some(marked)), id, payload), if id in st.submitted then StillActive(id) else Submitted(id))
  }

  /** A rerun that has marked its scope, and submitted nothing yet. */
  ghost function MarkTo(g: Graph, st: Store, node: Name): Store
    requires g.Valid()
  {
    if RerunTo(g, st, node, None).1.Submitted? || RerunTo(g, st, node, None).1.StillActive?
    then st.(run := Some(Marked(g, st.run.value, st.records, node)))
    else st
  }

  ghost function CancelTo(st: Store): Store {
    if IsActive(st) then
      st.(run := Some(st.run.value.(state := RunCancelled, settledAt := Some(st.clock))))
    else st
  }

  /** A mapped node with an unrecorded instance, whose members a cancel reaches. */
  predicate HasMemberGroup(node: Node, records: NodeRecords, run: GraphRunRecord) {
    node.spec.each.Some? && UnrecordedRunId(run, records, node.Name()).Some?
  }

  function MemberGroups(g: Graph, records: NodeRecords, run: GraphRunRecord): set<Name>
    requires g.Indexed()
  {
    set n | n in g.index && HasMemberGroup(g.Get(n), records, run)
  }

  datatype Request =
    | StartRequest(definition: string)
    | RerunRequest(node: Name)
    | CancelRequest

  function RecordRequest(st: Store, id: RequestId, outcome: RequestOutcome): Store {
    st.(requests := st.requests[id := RequestRecord(st.clock, outcome)])
  }

  function Refusal(outcome: RerunOutcome): string {
    match outcome
    case StillActive(_) => "the rerun is active"
    case NoRecord => "the node does not have a record"
    case NotReady => "the node is not ready"
    case _ => "the run or the node does not exist"
  }

  /** The delivery of a request: nothing when it has a record. The record of a new
      rerun commits with its submit, and every other record after its effect. */
  ghost function RequestTo(g: Graph, st: Store, id: RequestId, request: Request): Store
    requires g.Valid()
  {
    if id in st.requests then st
    else match request
      case StartRequest(definition) =>
        RecordRequest(StartTo(g, st, definition), id, Started(st.run == None))
      case RerunRequest(node) =>
        var (next, outcome) := RerunTo(g, st, node, Some(id));
        if outcome.Submitted? then next else RecordRequest(next, id, Refused(Refusal(outcome)))
      case CancelRequest =>
        if IsActive(st) then RecordRequest(CancelTo(st), id, CancelledRun)
        else RecordRequest(st, id, Refused("the run is not active"))
  }
}
