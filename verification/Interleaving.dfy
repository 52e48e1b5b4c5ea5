/**
 The run protocol with every handler cut into its single reads and commits.

 Handlers run at the same time on the store of one graph run. Each holds what it
 read earlier, any of them can crash between two commits, and an event or a
 request can be delivered again. A step that is not enabled leaves the world as it
 is, so a list of steps is one arbitrary run.
 */
module Interleaving {
  import opened Wrappers
  import opened Json
  import opened Records
  import opened Graphs
  import opened Readiness
  import opened Scopes
  import opened Store
  import opened RunRules

  datatype Goal =
    | Advance(candidates: set<Name>)
    | RerunNode(node: Name, request: Option<RequestId>)

  /** A handler between two steps, with what it has read. */
  datatype Handler =
    // start_run, after its put: the roots it has left to submit
    | Rooting(definition: string, todo: set<Name>, request: Option<RequestId>)
    // node_records: the nodes left to read and the records read
    | Reading(run: GraphRunRecord, goal: Goal, unread: set<Name>, seen: NodeRecords)
    // the submit loop of advance
    | Submitting(run: GraphRunRecord, seen: NodeRecords, todo: set<Name>)
    // the activity scan of settle
    | Scanning(run: GraphRunRecord, seen: NodeRecords, state: GraphRunState, unchecked: set<Name>)
    // the commit of settle
    | Settling(run: GraphRunRecord, seen: NodeRecords, state: GraphRunState)
    // the compare-and-put of rerun_with
    | Marking(run: GraphRunRecord, seen: NodeRecords, node: Name, request: Option<RequestId>)
    // the submit of rerun_with
    | Resubmitting(marked: GraphRunRecord, seen: NodeRecords, node: Name, request: Option<RequestId>)
    // the commit of cancel_run
    | Cancelling(run: GraphRunRecord, request: Option<RequestId>)
    // the commit of the record of a request
    | Recording(id: RequestId, outcome: RequestOutcome)

  datatype World = World(store: Store, handlers: map<nat, Handler>)

  const Initial := World(Empty, map[])

  datatype Step =
    | Tick
    | TerminateRun(id: RunId, status: RecordStatus, output: Option<Value>, error: Option<string>)
    | Acknowledge(event: Name)
    | BeginStart(h: nat, definition: string, request: Option<RequestId>)
    | BeginEvent(h: nat, event: Name)
    | BeginReconcile(h: nat)
    | BeginRerun(h: nat, node: Name, request: Option<RequestId>)
    | BeginCancel(h: nat, request: Option<RequestId>)
    | Go(h: nat, choice: Name)
    | Crash(h: nat)

  function RequestOf(handler: Handler): Option<RequestId> {
    match handler
    case Rooting(_, _, request) => request
    case Reading(_, RerunNode(_, request), _, _) => request
    case Marking(_, _, _, request) => request
    case Resubmitting(_, _, _, request) => request
    case Cancelling(_, request) => request
    case Recording(id, _) => Some(id)
    case _ => None
  }

  /** A request is taken up when it has no record, by the one request worker. */
  predicate Takes(w: World, request: Option<RequestId>) {
    request.Some? ==>
      && request.value !in w.store.requests
      && forall h :: h in w.handlers ==> RequestOf(w.handlers[h]) == None
  }

  /** A handler ends; the outcome of its request is left to record. */
  function Finish(w: World, h: nat, request: Option<RequestId>, outcome: RequestOutcome): World {
    if request.Some? then w.(handlers := w.handlers[h := Recording(request.value, outcome)])
    else w.(handlers := w.handlers - {h})
  }

  function Begin(w: World, h: nat, handler: Handler): World {
    w.(handlers := w.handlers[h := handler])
  }

  ghost function BeginWith(g: Graph, w: World, s: Step): World
    requires g.Valid()
    requires s.BeginStart? || s.BeginEvent? || s.BeginReconcile? || s.BeginRerun? || s.BeginCancel?
  {
    var st := w.store;
    if s.h in w.handlers then w
    else match s
      case BeginStart(h, definition, request) =>
        if !Takes(w, request) then w
        else if st.run.Some? then Finish(w, h, request, Started(false))
        else Begin(w.(store := st.(run := Some(NewRun(definition, st.clock)))), h,
                   Rooting(definition, g.Roots(), request))
      case BeginEvent(h, event) =>
        if event in st.events && event in g.index && st.run.Some? && st.run.value.state == RunActive
        then Begin(w, h, Reading(st.run.value, Advance(g.Get(event).downstreams), g.index.Keys, map[]))
        else w
      case BeginReconcile(h) =>
        if st.run.Some? && st.run.value.state == RunActive
        then Begin(w, h, Reading(st.run.value, Advance(g.index.Keys), g.index.Keys, map[]))
        else w
      case BeginRerun(h, node, request) =>
        if !Takes(w, request) then w
        else if st.run.Some? && node in g.index
        then Begin(w, h, Reading(st.run.value, RerunNode(node, request), g.index.Keys, map[]))
        else Finish(w, h, request, Refused("the run or the node does not exist"))
      case BeginCancel(h, request) =>
        if !Takes(w, request) then w
        else if st.run.Some? && st.run.value.state == RunActive
        then Begin(w, h, Cancelling(st.run.value, request))
        else Finish(w, h, request, Refused("the run is not active"))
  }

  /** The next step of a handler; `choice` picks the node of a loop. */
  ghost function GoWith(g: Graph, w: World, h: nat, choice: Name): World
    requires g.Valid() && h in w.handlers && HandlerIn(g, w.handlers[h])
  {
    var st := w.store;
    match w.handlers[h]
    case Rooting(definition, todo, request) =>
      if todo == {} then Finish(w, h, request, Started(true))
      else if choice !in todo then w
      else Begin(w.(store := Submit(st, RunId(choice, 0), Payload(definition, map[], None))), h,
                 Rooting(definition, todo - {choice}, request))
    case Reading(run, goal, unread, seen) =>
      if unread != {} then
        if choice !in unread then w
        else Begin(w, h, Reading(run, goal, unread - {choice},
                                 if choice in st.records then seen[choice := st.records[choice]] else seen))
      else (match goal
        case Advance(candidates) => Begin(w, h, Submitting(run, seen, candidates))
        case RerunNode(node, request) =>
          if node !in seen then Finish(w, h, request, Refused("the node does not have a record"))
          else
            var marked := Marked(g, run, seen, node);
            if !IsReady(g.Get(node), CurrentRecords(marked, seen))
            then Finish(w, h, request, Refused("the node is not ready"))
            else if marked != run then Begin(w, h, Marking(run, seen, node, request))
            else Begin(w, h, Resubmitting(marked, seen, node, request)))
    case Submitting(run, seen, todo) =>
      var current := CurrentRecords(run, seen);
      if todo == {} then
        var state := SettledState(StatesOf(g, current));
        if state.Some? then Begin(w, h, Scanning(run, seen, state.value, g.index.Keys))
        else w.(handlers := w.handlers - {h})
      else if choice !in todo then w
      else
        var next := Begin(w, h, Submitting(run, seen, todo - {choice}));
        if StateOf(g, current, choice) == Ready then
          next.(store := Submit(st, RunId(choice, NextCount(seen, choice)),
                                Payload(run.definition, UpstreamRecords(g.Get(choice), current), None)))
        else next
    case Scanning(run, seen, state, unchecked) =>
      if unchecked == {} then Begin(w, h, Settling(run, seen, state))
      else if choice !in unchecked then w
      else
        var id := UnrecordedRunId(run, seen, choice);
        if id.Some? && id.value in st.active then w.(handlers := w.handlers - {h})
        else Begin(w, h, Scanning(run, seen, state, unchecked - {choice}))
    case Settling(run, seen, state) =>
      var ended := w.(handlers := w.handlers - {h});
      if st.run == Some(run) then ended.(store := st.(run := Some(Settled(run, seen, state, st.clock))))
      else ended
    case Marking(run, seen, node, request) =>
      // another write of the run ends the handler, and the request is delivered again
      if st.run == Some(run) then
        var marked := Marked(g, run, seen, node);
        Begin(w.(store := st.(run := Some(marked))), h, Resubmitting(marked, seen, node, request))
      else w.(handlers := w.handlers - {h})
    case Resubmitting(marked, seen, node, request) =>
      var id := RunId(node, seen[node].rerun + 1);
      if id in st.submitted then Finish(w, h, request, Refused("the rerun is active"))
      else World(Submit(st, id, Payload(seen[node].definition,
                                        UpstreamRecords(g.Get(node), CurrentRecords(marked, seen)), request)),
                 w.handlers - {h})
    case Cancelling(run, request) =>
      if st.run == Some(run) then
        Finish(w.(store := st.(run := Some(run.(state := RunCancelled, settledAt := Some(st.clock))))),
               h, request, CancelledRun)
      else Finish(w, h, request, Refused("the run is not active"))
    case Recording(id, outcome) =>
      World(st.(requests := st.requests[id := RequestRecord(st.clock, outcome)]), w.handlers - {h})
  }

  /** The names a handler holds are nodes of the graph. */
  ghost predicate HandlerIn(g: Graph, handler: Handler) {
    match handler
    case Rooting(_, todo, _) => todo <= g.index.Keys
    case Reading(_, goal, unread, seen) =>
      && unread <= g.index.Keys && seen.Keys <= g.index.Keys
      && (goal.Advance? ==> goal.candidates <= g.index.Keys)
      && (goal.RerunNode? ==> goal.node in g.index)
    case Submitting(_, seen, todo) => seen.Keys <= g.index.Keys && todo <= g.index.Keys
    case Scanning(_, seen, _, unchecked) => seen.Keys <= g.index.Keys && unchecked <= g.index.Keys
    case Settling(_, seen, _) => seen.Keys <= g.index.Keys
    case Marking(_, seen, node, _) => seen.Keys <= g.index.Keys && node in g.index && node in seen
    case Resubmitting(_, seen, node, _) => seen.Keys <= g.index.Keys && node in g.index && node in seen
    case Cancelling(_, _) => true
    case Recording(_, _) => true
  }

  ghost function Next(g: Graph, w: World, s: Step): World
    requires g.Valid()
  {
    match s
    case Tick => w.(store := w.store.(clock := w.store.clock + 1))
    case TerminateRun(id, status, output, error) =>
      if id in w.store.active && id in w.store.submitted
      then w.(store := Terminate(w.store, id, status, output, error)) else w
    case Acknowledge(event) => w.(store := w.store.(events := w.store.events - {event}))
    case Go(h, choice) =>
      if h in w.handlers && HandlerIn(g, w.handlers[h]) then GoWith(g, w, h, choice) else w
    case Crash(h) => w.(handlers := w.handlers - {h})
    case _ => BeginWith(g, w, s)
  }

  /** The world after an arbitrary run. */
  ghost function After(g: Graph, steps: seq<Step>): World
    requires g.Valid()
    decreases |steps|
  {
    if steps == [] then Initial else Next(g, After(g, steps[..|steps| - 1]), steps[|steps| - 1])
  }
}
