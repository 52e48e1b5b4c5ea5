/**
 What holds in every interleaved run, with stale reads, crashes, and events and
 requests delivered again: the submitted counts of a node are a prefix, at most
 its next instance is active, and a request submits at most one instance.
 */
module InterleavingLaws {
  import opened Wrappers
  import opened Json
  import opened Records
  import opened Graphs
  import opened Readiness
  import opened ReadinessLaws
  import opened Scopes
  import opened Store
  import opened RunRules
  import opened RunLaws
  import opened Interleaving

  /** What a handler between two steps can rely on. */
  ghost predicate HandlerOk(g: Graph, st: Store, handler: Handler)
    requires g.Valid() && HandlerIn(g, handler)
  {
    match handler
    case Rooting(_, todo, _) => st.run.Some? && todo <= g.Roots()
    case Reading(run, _, _, seen) => View(run, seen, st)
    case Submitting(run, seen, _) => View(run, seen, st)
    case Scanning(run, seen, state, _) => View(run, seen, st) && state in {RunComplete, RunFailed}
    case Settling(run, seen, state) => View(run, seen, st) && state in {RunComplete, RunFailed}
    case Marking(run, seen, node, _) =>
      View(run, seen, st) && MayRerun(g, Marked(g, run, seen, node), seen, node)
    case Resubmitting(marked, seen, node, _) =>
      SeenRun(marked, st) && Seen(seen, st.records) && MayRerun(g, marked, seen, node)
    case Cancelling(_, _) => true
    case Recording(_, outcome) => !outcome.Rerun?
  }

  /** A rerun outcome is recorded for exactly the requests that submitted an instance. */
  ghost predicate RequestsInv(st: Store) {
    && (forall r {:trigger r in st.requests} :: r in st.requests && st.requests[r].outcome.Rerun? ==>
          && st.requests[r].outcome.runId in st.submitted
          && st.submitted[st.requests[r].outcome.runId].request == Some(r))
    && (forall id {:trigger id in st.submitted} :: id in st.submitted && st.submitted[id].request.Some? ==>
          && st.submitted[id].request.value in st.requests
          && st.requests[st.submitted[id].request.value].outcome == Rerun(id))
  }

  ghost predicate HandlerInv(g: Graph, w: World, h: nat)
    requires g.Valid() && h in w.handlers
  {
    var handler := w.handlers[h];
    && HandlerIn(g, handler)
    && HandlerOk(g, w.store, handler)
    && (RequestOf(handler).Some? ==> RequestOf(handler).value !in w.store.requests)
  }

  ghost predicate OneRequest(handlers: map<nat, Handler>) {
    forall h, k {:trigger handlers[h], handlers[k]} ::
      h in handlers && k in handlers && RequestOf(handlers[h]).Some? && RequestOf(handlers[k]).Some?
      ==> h == k
  }

  ghost predicate WorldInv(g: Graph, w: World)
    requires g.Valid()
  {
    && StoreInv(g, w.store)
    && RequestsInv(w.store)
    && OneRequest(w.handlers)
    && forall h {:trigger HandlerInv(g, w, h)} :: h in w.handlers ==> HandlerInv(g, w, h)
  }

  lemma HandlerStays(g: Graph, st: Store, next: Store, handler: Handler)
    requires g.Valid() && HandlerIn(g, handler)
    requires HandlerOk(g, st, handler) && Later(st, next)
    ensures HandlerOk(g, next, handler)
  {
    match handler
    case Rooting(_, _, _) =>
    case Reading(run, _, _, seen) => ViewStays(run, seen, st, next);
    case Submitting(run, seen, _) => ViewStays(run, seen, st, next);
    case Scanning(run, seen, _, _) => ViewStays(run, seen, st, next);
    case Settling(run, seen, _) => ViewStays(run, seen, st, next);
    case Marking(run, seen, _, _) => ViewStays(run, seen, st, next);
    case Resubmitting(marked, seen, _, _) =>
      SeenRunStays(marked, st, next);
      SeenStays(seen, st.records, next.records);
    case Cancelling(_, _) =>
    case Recording(_, _) =>
  }

  /** A step of handler `h`, or of none, is sound: the store follows, and what
      `h` became is sound in the new store. */
  ghost predicate SoundStep(g: Graph, w: World, next: World, h: nat)
    requires g.Valid()
  {
    && StoreInv(g, next.store)
    && RequestsInv(next.store)
    && Later(w.store, next.store)
    && next.handlers - {h} == w.handlers - {h}
    && (h in next.handlers ==> HandlerInv(g, next, h))
    && ((h in next.handlers && RequestOf(next.handlers[h]).Some?) || next.store.requests != w.store.requests ==>
          forall k {:trigger w.handlers[k]} :: k in w.handlers && k != h ==> RequestOf(w.handlers[k]) == None)
  }

  lemma SoundStepKeeps(g: Graph, w: World, next: World, h: nat)
    requires g.Valid() && WorldInv(g, w) && SoundStep(g, w, next, h)
    ensures WorldInv(g, next)
  {
    hide HandlerOk, HandlerIn, StoreInv, RequestsInv, Later;
    forall k | k in next.handlers
      ensures HandlerInv(g, next, k)
      ensures k != h ==> k in w.handlers && next.handlers[k] == w.handlers[k]
    {
      if k != h {
        assert k in next.handlers - {h};
        assert k in w.handlers && (next.handlers - {h})[k] == (w.handlers - {h})[k];
        assert HandlerInv(g, w, k);
        HandlerStays(g, w.store, next.store, w.handlers[k]);
      }
    }
  }

  /** A step of `h` that leaves the store alone. */
  lemma LocalStep(g: Graph, w: World, next: World, h: nat)
    requires g.Valid() && WorldInv(g, w) && h in w.handlers
    requires next.store == w.store && next.handlers - {h} == w.handlers - {h}
    requires h in next.handlers ==>
               && HandlerIn(g, next.handlers[h]) && HandlerOk(g, w.store, next.handlers[h])
               && RequestOf(next.handlers[h]) in {None, RequestOf(w.handlers[h])}
    ensures SoundStep(g, w, next, h)
  {
    LaterReflexive(g, w.store);
    assert HandlerInv(g, w, h);
  }

  lemma FinishSound(g: Graph, w: World, h: nat, outcome: RequestOutcome)
    requires g.Valid() && WorldInv(g, w) && h in w.handlers && !outcome.Rerun?
    ensures SoundStep(g, w, Finish(w, h, RequestOf(w.handlers[h]), outcome), h)
  {
    LocalStep(g, w, Finish(w, h, RequestOf(w.handlers[h]), outcome), h);
  }

  lemma RequestsStay(st: Store, next: Store)
    requires RequestsInv(st) && next.submitted == st.submitted && next.requests == st.requests
    ensures RequestsInv(next)
  {
  }

  lemma SubmitRequests(st: Store, id: RunId, payload: Payload)
    requires RequestsInv(st)
    requires payload.request.Some? ==> payload.request.value !in st.requests
    ensures RequestsInv(Submit(st, id, payload))
  {
  }

  lemma GoRooting(g: Graph, w: World, h: nat, choice: Name)
    requires g.Valid() && WorldInv(g, w) && h in w.handlers && w.handlers[h].Rooting?
    requires HandlerInv(g, w, h)
    ensures SoundStep(g, w, GoWith(g, w, h, choice), h)
  {
    hide StoreInv, RequestsInv, Later, View;
    var st := w.store;
    var Rooting(definition, todo, request) := w.handlers[h];
    var next := GoWith(g, w, h, choice);
    if todo == {} {
      FinishSound(g, w, h, Started(true));
    } else if choice !in todo {
      LocalStep(g, w, w, h);
    } else {
      var payload := Payload(definition, map[], None);
      assert g.Get(choice).upstreams == {};
      SubmitKeeps(g, st, RunId(choice, 0), payload);
      SubmitRequests(st, RunId(choice, 0), payload);
      HandlerStays(g, st, next.store, w.handlers[h]);
    }
  }

  lemma GoReading(g: Graph, w: World, h: nat, choice: Name)
    requires g.Valid() && WorldInv(g, w) && h in w.handlers && w.handlers[h].Reading?
    requires HandlerInv(g, w, h)
    ensures SoundStep(g, w, GoWith(g, w, h, choice), h)
  {
    var st := w.store;
    var Reading(run, goal, unread, seen) := w.handlers[h];
    var next := GoWith(g, w, h, choice);
    if unread != {} {
      if choice in unread && choice in st.records {
        ReadOne(run, seen, st, choice);
      }
      LocalStep(g, w, next, h);
    } else {
      match goal
      case Advance(candidates) =>
        LocalStep(g, w, next, h);
      case RerunNode(node, request) =>
        if node !in seen {
          FinishSound(g, w, h, Refused("the node does not have a record"));
        } else if !IsReady(g.Get(node), CurrentRecords(Marked(g, run, seen, node), seen)) {
          FinishSound(g, w, h, Refused("the node is not ready"));
        } else {
          MarkedSupersedes(g, run, seen, node);
          LocalStep(g, w, next, h);
        }
    }
  }

  /** A step of `h` that submits one instance. */
  lemma SubmitSound(g: Graph, w: World, next: World, h: nat, id: RunId, payload: Payload)
    requires g.Valid() && WorldInv(g, w) && h in w.handlers && HandlerInv(g, w, h)
    requires MaySubmit(g, w.store, id, payload) && next.store == Submit(w.store, id, payload)
    requires payload.request in {None, RequestOf(w.handlers[h])}
    requires next.handlers - {h} == w.handlers - {h}
    requires h in next.handlers ==>
               && RequestOf(next.handlers[h]) == None
               && HandlerIn(g, next.handlers[h]) && HandlerOk(g, w.store, next.handlers[h])
    ensures SoundStep(g, w, next, h)
  {
    SubmitKeeps(g, w.store, id, payload);
    SubmitRequests(w.store, id, payload);
    hide MaySubmit, StoreInv, Later, RequestsInv, HandlerIn, HandlerOk;
    if h in next.handlers {
      HandlerStays(g, w.store, next.store, next.handlers[h]);
    }
  }

  lemma GoSubmitting(g: Graph, w: World, h: nat, choice: Name)
    requires g.Valid() && WorldInv(g, w) && h in w.handlers && w.handlers[h].Submitting?
    requires HandlerInv(g, w, h)
    ensures SoundStep(g, w, GoWith(g, w, h, choice), h)
  {
    hide StatesOf, StateOf, StoreInv, RequestsInv;
    var st := w.store;
    var Submitting(run, seen, todo) := w.handlers[h];
    var next := GoWith(g, w, h, choice);
    var current := CurrentRecords(run, seen);
    if todo == {} {
      SettledExactlyWithoutReadyNodes(g, current);
      LocalStep(g, w, next, h);
    } else if choice in todo && StateOf(g, current, choice) == Ready {
      StateReads(g, current, choice);
      UnrecordedState(g, current, choice);
      var id := RunId(choice, NextCount(seen, choice));
      var payload := Payload(run.definition, UpstreamRecords(g.Get(choice), current), None);
      ViewMaySubmit(g, st, run, seen, choice, payload);
      SubmitSound(g, w, next, h, id, payload);
    } else {
      LocalStep(g, w, next, h);
    }
  }

  lemma GoScanning(g: Graph, w: World, h: nat, choice: Name)
    requires g.Valid() && WorldInv(g, w) && h in w.handlers && w.handlers[h].Scanning?
    requires HandlerInv(g, w, h)
    ensures SoundStep(g, w, GoWith(g, w, h, choice), h)
  {
    LocalStep(g, w, GoWith(g, w, h, choice), h);
  }

  lemma GoSettling(g: Graph, w: World, h: nat, choice: Name)
    requires g.Valid() && WorldInv(g, w) && h in w.handlers && w.handlers[h].Settling?
    requires HandlerInv(g, w, h)
    ensures SoundStep(g, w, GoWith(g, w, h, choice), h)
  {
    var Settling(run, seen, state) := w.handlers[h];
    var next := GoWith(g, w, h, choice);
    if w.store.run == Some(run) {
      SettledKeeps(g, w.store, run, seen, state);
      RequestsStay(w.store, next.store);
    } else {
      LocalStep(g, w, next, h);
    }
  }

  lemma GoMarking(g: Graph, w: World, h: nat, choice: Name)
    requires g.Valid() && WorldInv(g, w) && h in w.handlers && w.handlers[h].Marking?
    requires HandlerInv(g, w, h)
    ensures SoundStep(g, w, GoWith(g, w, h, choice), h)
  {
    hide StoreInv, Marked;
    var Marking(run, seen, node, request) := w.handlers[h];
    var next := GoWith(g, w, h, choice);
    if w.store.run == Some(run) {
      MarkedKeeps(g, w.store, run, seen, node);
      RequestsStay(w.store, next.store);
    } else {
      LocalStep(g, w, next, h);
    }
  }

  lemma GoResubmitting(g: Graph, w: World, h: nat, choice: Name)
    requires g.Valid() && WorldInv(g, w) && h in w.handlers && w.handlers[h].Resubmitting?
    requires HandlerInv(g, w, h)
    ensures SoundStep(g, w, GoWith(g, w, h, choice), h)
  {
    hide StoreInv, RequestsInv;
    var st := w.store;
    var Resubmitting(marked, seen, node, request) := w.handlers[h];
    var next := GoWith(g, w, h, choice);
    var id := RunId(node, seen[node].rerun + 1);
    if id in st.submitted {
      FinishSound(g, w, h, Refused("the rerun is active"));
    } else {
      var payload := Payload(seen[node].definition,
                             UpstreamRecords(g.Get(node), CurrentRecords(marked, seen)), request);
      ViewMaySubmit(g, st, marked, seen, node, payload);
      SubmitSound(g, w, next, h, id, payload);
    }
  }

  lemma GoCancelling(g: Graph, w: World, h: nat, choice: Name)
    requires g.Valid() && WorldInv(g, w) && h in w.handlers && w.handlers[h].Cancelling?
    requires HandlerInv(g, w, h)
    ensures SoundStep(g, w, GoWith(g, w, h, choice), h)
  {
    var st := w.store;
    var Cancelling(run, request) := w.handlers[h];
    var next := GoWith(g, w, h, choice);
    if st.run == Some(run) {
      PutRunKeeps(g, st, run.(state := RunCancelled, settledAt := Some(st.clock)));
      RequestsStay(st, next.store);
    } else {
      FinishSound(g, w, h, Refused("the run is not active"));
    }
  }

  lemma GoRecording(g: Graph, w: World, h: nat, choice: Name)
    requires g.Valid() && WorldInv(g, w) && h in w.handlers && w.handlers[h].Recording?
    requires HandlerInv(g, w, h)
    ensures SoundStep(g, w, GoWith(g, w, h, choice), h)
  {
    var next := GoWith(g, w, h, choice);
    assert next.handlers == w.handlers - {h};
    LaterReflexive(g, w.store);
  }

  lemma GoSound(g: Graph, w: World, h: nat, choice: Name)
    requires g.Valid() && WorldInv(g, w) && h in w.handlers && HandlerInv(g, w, h)
    ensures SoundStep(g, w, GoWith(g, w, h, choice), h)
  {
    match w.handlers[h]
    case Rooting(_, _, _) => GoRooting(g, w, h, choice);
    case Reading(_, _, _, _) => GoReading(g, w, h, choice);
    case Submitting(_, _, _) => GoSubmitting(g, w, h, choice);
    case Scanning(_, _, _, _) => GoScanning(g, w, h, choice);
    case Settling(_, _, _) => GoSettling(g, w, h, choice);
    case Marking(_, _, _, _) => GoMarking(g, w, h, choice);
    case Resubmitting(_, _, _, _) => GoResubmitting(g, w, h, choice);
    case Cancelling(_, _) => GoCancelling(g, w, h, choice);
    case Recording(_, _) => GoRecording(g, w, h, choice);
  }

  /** A step that starts handler `h`, on a store that follows. */
  lemma BeginSound(g: Graph, w: World, next: World, h: nat, request: Option<RequestId>)
    requires g.Valid() && WorldInv(g, w) && h !in w.handlers && Takes(w, request)
    requires StoreInv(g, next.store) && Later(w.store, next.store) && RequestsInv(next.store)
    requires next.store.requests == w.store.requests
    requires next.handlers - {h} == w.handlers - {h}
    requires h in next.handlers ==>
               && RequestOf(next.handlers[h]) == request
               && HandlerIn(g, next.handlers[h]) && HandlerOk(g, next.store, next.handlers[h])
    requires request == None || h in next.handlers
    ensures SoundStep(g, w, next, h)
  {
  }

  lemma StartSound(g: Graph, w: World, s: Step)
    requires g.Valid() && WorldInv(g, w) && s.BeginStart?
    ensures WorldInv(g, BeginWith(g, w, s))
    ensures Later(w.store, BeginWith(g, w, s).store)
  {
    var st := w.store;
    var next := BeginWith(g, w, s);
    LaterReflexive(g, st);
    if next != w {
      if st.run == None {
        CreateRunKeeps(g, st, NewRun(s.definition, st.clock));
        RequestsStay(st, next.store);
      }
      hide StoreInv, RequestsInv, Later;
      BeginSound(g, w, next, s.h, s.request);
      SoundStepKeeps(g, w, next, s.h);
    }
  }

  /** The other handlers start with a read of the run record. */
  lemma NothingSeen(g: Graph, st: Store)
    requires StoreInv(g, st)
    ensures st.run.Some? ==> View(st.run.value, map[], st)
  {
  }

  lemma ReadersSound(g: Graph, w: World, s: Step)
    requires g.Valid() && WorldInv(g, w)
    requires s.BeginEvent? || s.BeginReconcile? || s.BeginRerun? || s.BeginCancel?
    ensures WorldInv(g, BeginWith(g, w, s))
    ensures Later(w.store, BeginWith(g, w, s).store)
  {
    hide StoreInv, RequestsInv, Later, View, Takes;
    var st := w.store;
    var next := BeginWith(g, w, s);
    LaterReflexive(g, st);
    if next != w {
      NothingSeen(g, st);
      var request := if s.BeginEvent? || s.BeginReconcile? then None else s.request;
      BeginSound(g, w, next, s.h, request);
      SoundStepKeeps(g, w, next, s.h);
    }
  }

  /** The environment's commits and a crash. */
  lemma OtherStepsStore(g: Graph, w: World, s: Step)
    requires g.Valid() && StoreInv(g, w.store)
    requires s.Tick? || s.TerminateRun? || s.Acknowledge? || s.Crash?
    ensures StoreInv(g, Next(g, w, s).store) && Later(w.store, Next(g, w, s).store)
    ensures Next(g, w, s).store.requests == w.store.requests && Next(g, w, s).store.submitted == w.store.submitted
  {
    LaterReflexive(g, w.store);
    if s.TerminateRun? && s.id in w.store.active {
      TerminateKeeps(g, w.store, s.id, s.status, s.output, s.error);
    }
  }

  lemma OtherStepsSound(g: Graph, w: World, s: Step)
    requires g.Valid() && WorldInv(g, w)
    requires s.Tick? || s.TerminateRun? || s.Acknowledge? || s.Crash?
    ensures WorldInv(g, Next(g, w, s))
    ensures Later(w.store, Next(g, w, s).store)
  {
    hide StoreInv, RequestsInv, Later, Terminate, HandlerIn, HandlerOk;
    var st := w.store;
    var next := Next(g, w, s);
    OtherStepsStore(g, w, s);
    RequestsStay(st, next.store);
    forall k | k in next.handlers
      ensures HandlerInv(g, next, k)
    {
      assert HandlerInv(g, w, k) && next.handlers[k] == w.handlers[k];
      HandlerStays(g, st, next.store, w.handlers[k]);
    }
  }

  lemma NextKeeps(g: Graph, w: World, s: Step)
    requires g.Valid() && WorldInv(g, w)
    ensures WorldInv(g, Next(g, w, s))
    ensures Later(w.store, Next(g, w, s).store)
  {
    match s
    case Go(h, choice) =>
      LaterReflexive(g, w.store);
      if h in w.handlers {
        assert HandlerInv(g, w, h);
        GoSound(g, w, h, choice);
        SoundStepKeeps(g, w, GoWith(g, w, h, choice), h);
      }
    case Tick => OtherStepsSound(g, w, s);
    case TerminateRun(_, _, _, _) => OtherStepsSound(g, w, s);
    case Acknowledge(_) => OtherStepsSound(g, w, s);
    case Crash(_) => OtherStepsSound(g, w, s);
    case BeginStart(_, _, _) => StartSound(g, w, s);
    case BeginEvent(_, _) => ReadersSound(g, w, s);
    case BeginReconcile(_) => ReadersSound(g, w, s);
    case BeginRerun(_, _, _) => ReadersSound(g, w, s);
    case BeginCancel(_, _) => ReadersSound(g, w, s);
  }

  lemma {:induction false} EveryRunKeeps(g: Graph, steps: seq<Step>)
    requires g.Valid()
    ensures WorldInv(g, After(g, steps))
    decreases |steps|
  {
    if steps != [] {
      EveryRunKeeps(g, steps[..|steps| - 1]);
      NextKeeps(g, After(g, steps[..|steps| - 1]), steps[|steps| - 1]);
    }
  }
}
